/**
 * The Leviton light-command handler of the assistant (`AI.handle_leviton_command`
 * in jarvis.py): it lower-cases and normalises the spoken query, selects the
 * registered switches it names, and switches them on or off.
 *
 * The registry is the assistant's `leviton_switches` dictionary, kept in
 * insertion order: a sequence of entries, each a key (the switch's name,
 * stripped and lower-cased when the registry was loaded) and the switch handle.
 */
module Lights {
  import opened Text

  datatype Power = On | Off

  /** A Leviton switch handle: its display name and the state a command changes. */
  class Switch {
    const name: string
    var power: Power
    var brightness: int

    constructor (name: string, power: Power, brightness: int)
      ensures this.name == name && this.power == power && this.brightness == brightness
    {
      this.name := name;
      this.power := power;
      this.brightness := brightness;
    }
  }

  datatype Entry = Entry(key: string, switch: Switch)

  function Switches(registry: seq<Entry>): set<Switch> {
    set e | e in registry :: e.switch
  }

  const LIST_PHRASES: seq<string> := ["list my lights", "what lights", "show lights"]
  const ALL_WORDS: seq<string> := ["all", "every", "whole house"]
  const ON_PHRASES: seq<string> := ["turn on", "on", "activate"]
  const OFF_PHRASES: seq<string> := ["turn off", "off", "deactivate"]
  /** The spelled numbers and their digits, in the order they are replaced. */
  const NUMBER_WORDS: seq<(string, string)> :=
    [("one", "1"), ("two", "2"), ("three", "3"), ("four", "4"), ("five", "5"),
     ("six", "6"), ("seven", "7"), ("eight", "8"), ("nine", "9")]

  // ---------------------------------------------------------------------
  // Normalisation
  // ---------------------------------------------------------------------

  predicate ProperTable(table: seq<(string, string)>) {
    forall k :: 0 <= k < |table| ==> |table[k].0| > 0
  }

  /** Applies `s = s.replace(word, digit)` for each pair of the table, in order. */
  function ReplaceEach(s: string, table: seq<(string, string)>): string
    requires ProperTable(table)
    decreases |table|
  {
    if table == [] then s else ReplaceEach(Replace(s, table[0].0, table[0].1), table[1..])
  }

  /** Replacing from position `k` of the table is replacing its `k`-th pair, then the rest. */
  lemma ReplaceEachStep(s: string, table: seq<(string, string)>, k: int)
    requires ProperTable(table) && 0 <= k < |table|
    ensures ReplaceEach(s, table[k..]) == ReplaceEach(Replace(s, table[k].0, table[k].1), table[k + 1..])
  {
    assert table[k..][0] == table[k] && table[k..][1..] == table[k + 1..];
  }

  /** The normalised query: "switches" made singular, then every spelled number one..nine made a digit. */
  function Normalize(q: string): string {
    ReplaceEach(Replace(q, "switches", "switch"), NUMBER_WORDS)
  }

  /** The replacement loop `for word, digit in table: s = s.replace(word, digit)`. */
  method ReplaceAll(s: string, table: seq<(string, string)>) returns (r: string)
    requires ProperTable(table)
    ensures r == ReplaceEach(s, table)
  {
    r := s;
    var k := 0;
    while k < |table|
      invariant 0 <= k <= |table|
      invariant ReplaceEach(r, table[k..]) == ReplaceEach(s, table)
    {
      var (word, digit) := table[k];
      ReplaceEachStep(r, table, k);
      r := Replace(r, word, digit);
      k := k + 1;
    }
  }

  /** The normalisation of the handler, step by step. */
  method NormalizeQuery(q: string) returns (qNorm: string)
    ensures qNorm == Normalize(q)
  {
    qNorm := Replace(q, "switches", "switch");
    qNorm := ReplaceAll(qNorm, NUMBER_WORDS);
  }

  // ---------------------------------------------------------------------
  // Target selection
  // ---------------------------------------------------------------------

  /** The query asks for every light. */
  predicate AllRequested(qNorm: string) {
    ContainsAny(qNorm, ALL_WORDS)
  }

  /** A registry key matches when, spaces removed, either of key and query contains the other. */
  predicate NameMatches(key: string, qNorm: string) {
    var nameNorm := Replace(Lower(key), " ", "");
    var qCheck := Replace(qNorm, " ", "");
    Contains(qCheck, nameNorm) || Contains(nameNorm, qCheck)
  }

  /** The positions of the matching keys, in registry order. */
  function Matching(registry: seq<Entry>, qNorm: string): (idx: seq<nat>)
    ensures forall i :: i in idx <==> 0 <= i < |registry| && NameMatches(registry[i].key, qNorm)
    ensures forall a, b :: 0 <= a < b < |idx| ==> idx[a] < idx[b]
    ensures InRange(registry, idx)
    decreases |registry|
  {
    if registry == [] then []
    else
      var n := |registry| - 1;
      var earlier := Matching(registry[..n], qNorm);
      earlier + (if NameMatches(registry[n].key, qNorm) then [n] else [])
  }

  function AllIndices(n: nat): (idx: seq<nat>)
    ensures |idx| == n && forall i :: 0 <= i < n ==> idx[i] == i
    ensures forall i :: i in idx <==> 0 <= i < n
  {
    var idx := seq(n, i requires 0 <= i < n => i);
    assert forall i :: 0 <= i < n ==> i in idx by {
      forall i | 0 <= i < n ensures i in idx {
        assert idx[i] == i;
      }
    }
    idx
  }

  predicate InRange(registry: seq<Entry>, idx: seq<nat>) {
    forall k :: 0 <= k < |idx| ==> idx[k] < |registry|
  }

  /** The positions of the switches a normalised query selects. */
  function Targets(registry: seq<Entry>, qNorm: string): (idx: seq<nat>)
    ensures InRange(registry, idx)
    ensures forall i :: i in idx <==> 0 <= i < |registry| && (AllRequested(qNorm) || NameMatches(registry[i].key, qNorm))
    ensures forall a, b :: 0 <= a < b < |idx| ==> idx[a] < idx[b]
  {
    if AllRequested(qNorm) then AllIndices(|registry|) else Matching(registry, qNorm)
  }

  function SwitchesAt(registry: seq<Entry>, idx: seq<nat>): (r: seq<Switch>)
    requires InRange(registry, idx)
    ensures |r| == |idx|
    ensures forall k :: 0 <= k < |idx| ==> r[k] == registry[idx[k]].switch
  {
    seq(|idx|, k requires 0 <= k < |idx| => registry[idx[k]].switch)
  }

  function NamesAt(registry: seq<Entry>, idx: seq<nat>): seq<string>
    requires InRange(registry, idx)
  {
    seq(|idx|, k requires 0 <= k < |idx| => registry[idx[k]].switch.name)
  }

  /** The selected switches are registered switches. */
  lemma SelectedAreRegistered(registry: seq<Entry>, idx: seq<nat>)
    requires InRange(registry, idx)
    ensures forall t :: t in SwitchesAt(registry, idx) ==> t in Switches(registry)
  {
    forall t | t in SwitchesAt(registry, idx)
      ensures t in Switches(registry)
    {
      var k :| 0 <= k < |idx| && SwitchesAt(registry, idx)[k] == t;
      assert registry[idx[k]] in registry;
    }
  }

  /** One more registry entry adds its position to the matches exactly when its key matches. */
  lemma MatchingStep(registry: seq<Entry>, i: int, qNorm: string)
    requires 0 <= i < |registry|
    ensures Matching(registry[..i + 1], qNorm) ==
      Matching(registry[..i], qNorm) + (if NameMatches(registry[i].key, qNorm) then [i] else [])
  {
    assert registry[..i + 1][..i] == registry[..i] && registry[..i + 1][i] == registry[i];
  }

  lemma SelectOneMore(registry: seq<Entry>, idx: seq<nat>, i: nat)
    requires InRange(registry, idx) && i < |registry|
    ensures InRange(registry, idx + [i])
    ensures SwitchesAt(registry, idx + [i]) == SwitchesAt(registry, idx) + [registry[i].switch]
    ensures NamesAt(registry, idx + [i]) == NamesAt(registry, idx) + [registry[i].switch.name]
  {
  }

  /** The labels the handler collects beside the targets. */
  function TargetNames(registry: seq<Entry>, qNorm: string): (r: seq<string>)
    ensures AllRequested(qNorm) ==> r == ["all lights"]
    ensures !AllRequested(qNorm) ==>
      |r| == |Targets(registry, qNorm)| &&
      forall k :: 0 <= k < |r| ==> r[k] == registry[Targets(registry, qNorm)[k]].switch.name
  {
    if AllRequested(qNorm) then ["all lights"] else NamesAt(registry, Matching(registry, qNorm))
  }

  /** The target-selection loop: the switches and labels, in registry order. */
  method CollectTargets(registry: seq<Entry>, qNorm: string) returns (targets: seq<Switch>, targetNames: seq<string>)
    ensures targets == SwitchesAt(registry, Targets(registry, qNorm))
    ensures targetNames == TargetNames(registry, qNorm)
  {
    if ContainsAny(qNorm, ALL_WORDS) {
      targets := SwitchesAt(registry, AllIndices(|registry|));
      targetNames := ["all lights"];
      return;
    }
    targets, targetNames := [], [];
    ghost var idx: seq<nat> := [];
    for i := 0 to |registry|
      invariant idx == Matching(registry[..i], qNorm)
      invariant InRange(registry, idx)
      invariant targets == SwitchesAt(registry, idx)
      invariant targetNames == NamesAt(registry, idx)
    {
      MatchingStep(registry, i, qNorm);
      if NameMatches(registry[i].key, qNorm) {
        targets := targets + [registry[i].switch];
        targetNames := targetNames + [registry[i].switch.name];
        SelectOneMore(registry, idx, i);
        idx := idx + [i];
      }
    }
    assert registry[..|registry|] == registry;
  }

  // ---------------------------------------------------------------------
  // The handler
  // ---------------------------------------------------------------------

  /** What one query does to the lights. */
  datatype LightOutcome =
    | NoSession                                             // not logged in: declined
    | Listed(speech: string)                                // a list phrase: the names are spoken
    | NoTargets                                             // no switch selected: declined
    | Switched(targets: seq<nat>, targetName: string, power: Power)  // every target set to `power`
    | NoVerb(targets: seq<nat>, targetName: string)              // targets but no on/off phrase: declined
  {
    /** The handler's return value: whether the query was taken as a light command. */
    predicate Handled() {
      Listed? || Switched?
    }
  }

  function AllNames(registry: seq<Entry>): seq<string> {
    seq(|registry|, i requires 0 <= i < |registry| => registry[i].switch.name)
  }

  function ListSpeech(registry: seq<Entry>): string {
    if |registry| > 0 then "Your lights are: " + Join(AllNames(registry), ", ")
    else "No Leviton lights found."
  }

  /** The decision `handle_leviton_command` takes on a query, in the order it tests things. */
  function LightDecision(hasSession: bool, registry: seq<Entry>, query: string): (d: LightOutcome)
    ensures (d.Switched? || d.NoVerb?) ==> d.targets != [] && InRange(registry, d.targets)
    ensures d.NoSession? <==> !hasSession
    ensures d.Listed? <==> hasSession && ContainsAny(Lower(query), LIST_PHRASES)
    ensures d.Listed? ==> d.speech == ListSpeech(registry)
    ensures d.NoTargets? <==>
      hasSession && !ContainsAny(Lower(query), LIST_PHRASES) && Targets(registry, Normalize(Lower(query))) == []
    ensures (d.Switched? || d.NoVerb?) ==> d.targets == Targets(registry, Normalize(Lower(query)))
  {
    if !hasSession then NoSession
    else
      var q := Lower(query);
      if ContainsAny(q, LIST_PHRASES) then Listed(ListSpeech(registry))
      else
        var qNorm := Normalize(q);
        var idx := Targets(registry, qNorm);
        if idx == [] then NoTargets
        else VerbDecision(q, idx, Join(TargetNames(registry, qNorm), ", "))
  }

  /** The on/off test on the lower-cased query, once targets were found: "on" is tested first. */
  function VerbDecision(q: string, idx: seq<nat>, targetName: string): (d: LightOutcome)
    ensures d.Switched? || d.NoVerb?
    ensures d.targets == idx && d.targetName == targetName
    ensures d.Switched? <==> ContainsAny(q, ON_PHRASES) || ContainsAny(q, OFF_PHRASES)
    ensures d.Switched? ==> (d.power == On <==> ContainsAny(q, ON_PHRASES))
  {
    if ContainsAny(q, ON_PHRASES) then Switched(idx, targetName, On)
    else if ContainsAny(q, OFF_PHRASES) then Switched(idx, targetName, Off)
    else NoVerb(idx, targetName)
  }

  /** The switch `s` is one of the targets of `outcome`. */
  predicate Targeted(registry: seq<Entry>, outcome: LightOutcome, s: Switch) {
    outcome.Switched? &&
    exists k :: 0 <= k < |outcome.targets| && outcome.targets[k] < |registry| && registry[outcome.targets[k]].switch == s
  }

  /** Sets the power of each target in turn (`update_attributes({"power": ...})`). */
  method SetPower(targets: seq<Switch>, power: Power)
    modifies set t | t in targets
    ensures forall t :: t in targets ==> t.power == power && t.brightness == old(t.brightness)
  {
    for k := 0 to |targets|
      invariant forall j :: 0 <= j < k ==> targets[j].power == power
      invariant forall t :: t in targets ==> t.brightness == old(t.brightness)
    {
      targets[k].power := power;
    }
  }

  /**
   * The tests of `handle_leviton_command`, in its order: whether the query is
   * taken as a light command and, when it switches lights, the switches it
   * selects and the power it sets them to.
   */
  method DecideLevitonCommand(hasSession: bool, registry: seq<Entry>, query: string)
    returns (handled: bool, targets: seq<Switch>, power: Power)
    ensures handled == LightDecision(hasSession, registry, query).Handled()
    ensures LightDecision(hasSession, registry, query).Switched? ==>
      targets == SwitchesAt(registry, LightDecision(hasSession, registry, query).targets) &&
      power == LightDecision(hasSession, registry, query).power
    ensures !LightDecision(hasSession, registry, query).Switched? ==> targets == []
  {
    ghost var d := LightDecision(hasSession, registry, query);
    power := Off;
    if !hasSession {
      assert d == NoSession;
      return false, [], power;
    }
    var q := Lower(query);
    if ContainsAny(q, LIST_PHRASES) {
      assert d.Listed?;
      return true, [], power;
    }
    var qNorm := NormalizeQuery(q);
    var targetNames;
    targets, targetNames := CollectTargets(registry, qNorm);
    if targets == [] {
      assert d == NoTargets;
      return false, [], power;
    }
    assert d == VerbDecision(q, Targets(registry, qNorm), Join(TargetNames(registry, qNorm), ", "));
    if ContainsAny(q, ON_PHRASES) {
      power := On;
    } else if !ContainsAny(q, OFF_PHRASES) {
      assert d.NoVerb?;
      return false, [], power;
    }
    assert d.Switched? && d.power == power;
    handled := true;
  }

  /**
   * `handle_leviton_command`: returns whether the query was a light command;
   * exactly the targeted switches change, only in their power, and no
   * brightness ever changes.
   */
  method HandleLevitonCommand(hasSession: bool, registry: seq<Entry>, query: string) returns (handled: bool)
    modifies Switches(registry)
    ensures handled == LightDecision(hasSession, registry, query).Handled()
    ensures forall s :: s in Switches(registry) ==>
      s.power == (if Targeted(registry, LightDecision(hasSession, registry, query), s)
                  then LightDecision(hasSession, registry, query).power else old(s.power))
    ensures forall s :: s in Switches(registry) ==> s.brightness == old(s.brightness)
  {
    ghost var decision := LightDecision(hasSession, registry, query);
    var targets, power;
    handled, targets, power := DecideLevitonCommand(hasSession, registry, query);
    if decision.Switched? {
      SelectedAreRegistered(registry, decision.targets);
    }
    SetPower(targets, power);
    forall s | s in Switches(registry)
      ensures s.power == (if Targeted(registry, decision, s) then decision.power else old(s.power))
    {
      if Targeted(registry, decision, s) {
        var k :| 0 <= k < |decision.targets| && decision.targets[k] < |registry| && registry[decision.targets[k]].switch == s;
        assert targets[k] == s;
      } else if decision.Switched? {
        assert s !in targets;
      }
    }
  }

  /**
   * The brightness clamp `max(1, min(100, level))` of the brightness block;
   * that block follows an unconditional `return False` and never runs.
   */
  function ClampLevel(level: int): (r: int)
    ensures 1 <= r <= 100
    ensures 1 <= level <= 100 ==> r == level
    ensures level > 100 ==> r == 100
    ensures level < 1 ==> r == 1
  {
    if level > 100 then 100 else if level < 1 then 1 else level
  }

  // ---------------------------------------------------------------------
  // Properties
  // ---------------------------------------------------------------------

  /** Replacing with strings that share no character with `w` never brings `w` back. */
  lemma {:induction false} ReplaceEachKeepsOut(s: string, table: seq<(string, string)>, w: string)
    requires ProperTable(table) && |w| > 0
    requires forall k :: 0 <= k < |table| ==> |table[k].1| > 0 && NoCommonChar(table[k].1, w)
    requires !Contains(s, w)
    ensures !Contains(ReplaceEach(s, table), w)
    decreases |table|
  {
    if table != [] {
      ReplaceKeepsOut(s, table[0].0, table[0].1, w);
      ReplaceEachKeepsOut(Replace(s, table[0].0, table[0].1), table[1..], w);
    }
  }

  /** After the whole table, none of its words is left, provided no replacement shares a character with a word. */
  lemma {:induction false} ReplaceEachRemoves(s: string, table: seq<(string, string)>, k: int)
    requires ProperTable(table) && 0 <= k < |table|
    requires forall j, m :: 0 <= j < |table| && 0 <= m < |table| ==> |table[j].1| > 0 && NoCommonChar(table[j].1, table[m].0)
    ensures !Contains(ReplaceEach(s, table), table[k].0)
    decreases |table|
  {
    var next := Replace(s, table[0].0, table[0].1);
    if k == 0 {
      ReplaceKeepsOut(s, table[0].0, table[0].1, table[0].0);
      ReplaceEachKeepsOut(next, table[1..], table[0].0);
    } else {
      ReplaceEachRemoves(next, table[1..], k - 1);
    }
  }

  /** A word sharing no character with the table's words survives every replacement. */
  lemma {:induction false} ReplaceEachKeepsContains(s: string, table: seq<(string, string)>, w: string)
    requires ProperTable(table) && Contains(s, w)
    requires forall k :: 0 <= k < |table| ==> NoCommonChar(table[k].0, w)
    ensures Contains(ReplaceEach(s, table), w)
    decreases |table|
  {
    if table != [] {
      ReplaceKeepsContains(s, table[0].0, table[0].1, w);
      ReplaceEachKeepsContains(Replace(s, table[0].0, table[0].1), table[1..], w);
    }
  }

  /** A string holding none of the table's words is left as it is. */
  lemma {:induction false} ReplaceEachAbsent(s: string, table: seq<(string, string)>)
    requires ProperTable(table)
    requires forall k :: 0 <= k < |table| ==> !Contains(s, table[k].0)
    ensures ReplaceEach(s, table) == s
    decreases |table|
  {
    if table != [] {
      ReplaceAbsent(s, table[0].0, table[0].1);
      ReplaceEachAbsent(s, table[1..]);
    }
  }

  /** No digit of the table occurs in any of its number words. */
  lemma DigitsAreNotLetters()
    ensures forall j, m :: 0 <= j < |NUMBER_WORDS| && 0 <= m < |NUMBER_WORDS| ==>
      |NUMBER_WORDS[j].1| > 0 && NoCommonChar(NUMBER_WORDS[j].1, NUMBER_WORDS[m].0)
  {
  }

  /** No spelled number one..nine is left in a normalised query. */
  lemma NormalizeSpellsDigits(q: string)
    ensures forall k :: 0 <= k < |NUMBER_WORDS| ==> !Contains(Normalize(q), NUMBER_WORDS[k].0)
  {
    DigitsAreNotLetters();
    forall k | 0 <= k < |NUMBER_WORDS|
      ensures !Contains(Normalize(q), NUMBER_WORDS[k].0)
    {
      ReplaceEachRemoves(Replace(q, "switches", "switch"), NUMBER_WORDS, k);
    }
  }

  /** A query already in normal form (no "switches", no spelled number) is left as it is. */
  lemma NormalizeUnchanged(q: string)
    requires !Contains(q, "switches")
    requires forall k :: 0 <= k < |NUMBER_WORDS| ==> !Contains(q, NUMBER_WORDS[k].0)
    ensures Normalize(q) == q
  {
    ReplaceAbsent(q, "switches", "switch");
    ReplaceEachAbsent(q, NUMBER_WORDS);
  }

  /**
   * A query containing "all" anywhere, even inside another word, selects every
   * registered switch, in registry order, under the single label "all lights".
   */
  lemma AllSelectsEverySwitch(registry: seq<Entry>, query: string)
    requires Contains(Lower(query), "all")
    ensures Targets(registry, Normalize(Lower(query))) == AllIndices(|registry|)
    ensures TargetNames(registry, Normalize(Lower(query))) == ["all lights"]
  {
    NormalizeKeepsAll(Lower(query));
    assert Contains(Normalize(Lower(query)), ALL_WORDS[0]);
  }

  /** Normalisation keeps an "all": no replaced word shares a character with it. */
  lemma NormalizeKeepsAll(q: string)
    requires Contains(q, "all")
    ensures Contains(Normalize(q), "all")
  {
    ReplaceKeepsContains(q, "switches", "switch", "all");
    forall k | 0 <= k < |NUMBER_WORDS|
      ensures NoCommonChar(NUMBER_WORDS[k].0, "all")
    {
    }
    ReplaceEachKeepsContains(Replace(q, "switches", "switch"), NUMBER_WORDS, "all");
  }

  /** "hallway" contains "all": a command for the hallway light addresses every light. */
  lemma HallwaySelectsEverySwitch(registry: seq<Entry>, query: string)
    requires Contains(Lower(query), "hallway")
    ensures Targets(registry, Normalize(Lower(query))) == AllIndices(|registry|)
    ensures TargetNames(registry, Normalize(Lower(query))) == ["all lights"]
  {
    assert OccursAt("hallway", "all", 1);
    OccursAtContains("hallway", "all", 1);
    ContainsTransitive(Lower(query), "hallway", "all");
    AllSelectsEverySwitch(registry, query);
  }

  /**
   * "on" is tested before "off", on the raw lower-cased query: any query that
   * selects switches and contains "front" (as in "turn off front porch") or
   * "deactivate" (which contains "activate") switches its targets ON.
   */
  lemma OnShadowsOff(hasSession: bool, registry: seq<Entry>, query: string)
    requires hasSession && !ContainsAny(Lower(query), LIST_PHRASES)
    requires Targets(registry, Normalize(Lower(query))) != []
    requires Contains(Lower(query), "front") || Contains(Lower(query), "deactivate")
    ensures LightDecision(hasSession, registry, query).Switched?
    ensures LightDecision(hasSession, registry, query).power == On
  {
    OnPhraseInside(Lower(query));
  }

  /** "front" contains "on" and "deactivate" contains "activate", both on-phrases. */
  lemma OnPhraseInside(q: string)
    requires Contains(q, "front") || Contains(q, "deactivate")
    ensures ContainsAny(q, ON_PHRASES)
  {
    if Contains(q, "front") {
      assert OccursAt("front", "on", 2);
      OccursAtContains("front", "on", 2);
      ContainsTransitive(q, "front", "on");
      assert Contains(q, ON_PHRASES[1]);
    } else {
      assert OccursAt("deactivate", "activate", 2);
      OccursAtContains("deactivate", "activate", 2);
      ContainsTransitive(q, "deactivate", "activate");
      assert Contains(q, ON_PHRASES[2]);
    }
  }

  /**
   * A query that is exactly a registry key already in normal form selects that
   * switch (among possibly others: matching is by substring both ways).
   */
  lemma KeyQuerySelectsSwitch(registry: seq<Entry>, i: int)
    requires 0 <= i < |registry|
    requires LowerCase(registry[i].key) && !Contains(registry[i].key, "switches")
    requires forall k :: 0 <= k < |NUMBER_WORDS| ==> !Contains(registry[i].key, NUMBER_WORDS[k].0)
    ensures i in Targets(registry, Normalize(Lower(registry[i].key)))
  {
    var key := registry[i].key;
    assert Lower(key) == key;
    NormalizeUnchanged(key);
    if AllRequested(key) {
      assert AllIndices(|registry|)[i] == i;
    } else {
      var squeezed := Replace(key, " ", "");
      assert StartsWith(squeezed, squeezed);
      assert NameMatches(key, key);
      assert i in Matching(registry, key);
    }
  }

  /**
   * Once switches are selected, the on/off phrases decide, tested on the
   * lower-cased query: an on-phrase switches the targets on, otherwise an
   * off-phrase switches them off, and with neither the query is declined.
   */
  lemma OnOffCommand(registry: seq<Entry>, query: string)
    requires !ContainsAny(Lower(query), LIST_PHRASES)
    requires Targets(registry, Normalize(Lower(query))) != []
    ensures ContainsAny(Lower(query), ON_PHRASES) ==>
      LightDecision(true, registry, query).Switched? && LightDecision(true, registry, query).power == On
    ensures !ContainsAny(Lower(query), ON_PHRASES) && ContainsAny(Lower(query), OFF_PHRASES) ==>
      LightDecision(true, registry, query).Switched? && LightDecision(true, registry, query).power == Off
    ensures !ContainsAny(Lower(query), ON_PHRASES) && !ContainsAny(Lower(query), OFF_PHRASES) ==>
      LightDecision(true, registry, query).NoVerb? && !LightDecision(true, registry, query).Handled()
  {
  }

  /**
   * Only the query is normalised, never the keys: a switch whose key spells
   * "one" (and holds no "1", no space, no "switches") does not match its own
   * name, which becomes "1" in the query. Such a switch is reached only
   * through "all".
   */
  lemma SpelledKeyNotSelected(registry: seq<Entry>, i: int)
    requires 0 <= i < |registry|
    requires LowerCase(registry[i].key) && Contains(registry[i].key, "one")
    requires !Contains(registry[i].key, "1") && !Contains(registry[i].key, " ")
    requires !Contains(registry[i].key, "switches")
    ensures !NameMatches(registry[i].key, Normalize(Lower(registry[i].key)))
    ensures i in Targets(registry, Normalize(Lower(registry[i].key))) ==>
              AllRequested(Normalize(Lower(registry[i].key)))
  {
    var key := registry[i].key;
    var qNorm := Normalize(key);
    assert Lower(key) == key;
    KeyNormalForm(key);
    ReplaceAbsent(key, " ", "");
    ReplaceAbsent(qNorm, " ", "");
    NormalizeSpellsDigits(key);
    assert !Contains(qNorm, NUMBER_WORDS[0].0);
    ContainsThrough(qNorm, key, "one");
    ContainsThrough(key, qNorm, "1");
  }

  /** The normalised form of such a key holds a "1" and no space. */
  lemma KeyNormalForm(key: string)
    requires Contains(key, "one") && !Contains(key, " ") && !Contains(key, "switches")
    ensures Contains(Normalize(key), "1") && !Contains(Normalize(key), " ")
  {
    ReplaceAbsent(key, "switches", "switch");
    assert NUMBER_WORDS[0..] == NUMBER_WORDS;
    ReplaceEachStep(key, NUMBER_WORDS, 0);
    ReplaceInserts(key, "one", "1");
    forall k | 0 <= k < |NUMBER_WORDS[1..]|
      ensures NoCommonChar(NUMBER_WORDS[1..][k].0, "1")
    {
      NoDigitInWord(k + 1);
    }
    ReplaceEachKeepsContains(Replace(key, "one", "1"), NUMBER_WORDS[1..], "1");
    forall k | 0 <= k < |NUMBER_WORDS|
      ensures |NUMBER_WORDS[k].1| > 0 && NoCommonChar(NUMBER_WORDS[k].1, " ")
    {
      NoDigitInWord(k);
    }
    ReplaceEachKeepsOut(key, NUMBER_WORDS, " ");
  }

  /** A number word holds no digit, and a digit is no space. */
  lemma NoDigitInWord(k: int)
    requires 0 <= k < |NUMBER_WORDS|
    ensures NoCommonChar(NUMBER_WORDS[k].0, "1")
    ensures |NUMBER_WORDS[k].1| > 0 && NoCommonChar(NUMBER_WORDS[k].1, " ")
  {
  }

  /**
   * Matching is by containment both ways: a query equal to a key in normal
   * form also selects every switch whose key, spaces removed, occurs in it
   * ("kitchen island" selects "kitchen" too).
   */
  lemma ContainedKeySelected(registry: seq<Entry>, i: int, j: int)
    requires 0 <= i < |registry| && 0 <= j < |registry|
    requires LowerCase(registry[i].key) && !Contains(registry[i].key, "switches")
    requires forall k :: 0 <= k < |NUMBER_WORDS| ==> !Contains(registry[i].key, NUMBER_WORDS[k].0)
    requires Contains(Replace(registry[i].key, " ", ""), Replace(Lower(registry[j].key), " ", ""))
    ensures j in Targets(registry, Normalize(Lower(registry[i].key)))
  {
    var key := registry[i].key;
    assert Lower(key) == key;
    NormalizeUnchanged(key);
    assert NameMatches(registry[j].key, key);
  }

  /** A list phrase is answered before any target selection or on/off test. */
  lemma ShowLightsIsListed(hasSession: bool, registry: seq<Entry>, query: string)
    requires hasSession && Contains(Lower(query), "show lights")
    ensures LightDecision(hasSession, registry, query) == Listed(ListSpeech(registry))
  {
    assert Contains(Lower(query), LIST_PHRASES[2]);
  }
}
