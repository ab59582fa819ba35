/**
 * The command-building parts of the newer `Madgraph5` (hml/new_generators.py):
 * the pre-command list built at creation, the validated launch with its command
 * list and run name, the reading of an existing output's process card, and the
 * status markers followed while a run is monitored. Processes, files and the
 * terminal are left to the caller: the card and the log are sequences of text.
 */
module NewGenerators {
  import opened Wrappers
  import opened Strings
  import opened Dicts
  import opened Generators

  // ---------------------------------------------------------------------------
  // Command lists

  /**
   * The `pre` commands of `__init__`: IndexError without a process, otherwise the
   * model, the definitions and the processes as in hml/generators.py, then the output.
   */
  function PreCommands(model: string, definitions: Dict<string, string>, processes: seq<string>, output: string)
    : (r: Result<seq<string>>)
    ensures |processes| == 0 <==> r.Err?
    ensures r.Err? ==> r.error == IndexError
  {
    if |processes| == 0 then Err(IndexError)
    else Ok(PreLines(model, definitions, processes) + ["output " + output])
  }

  /** The order of the `pre` commands: model, definitions, first process, other processes, output. */
  lemma PreCommandsOrder(model: string, definitions: Dict<string, string>, processes: seq<string>, output: string)
    requires |processes| > 0
    ensures var c := PreCommands(model, definitions, processes, output).value;
      var d := |definitions|;
      var p := |processes|;
      && |c| == d + p + 2
      && c[0] == "import model " + model
      && (forall k :: 0 <= k < d ==> c[1 + k] == "define " + definitions[k].0 + " = " + definitions[k].1)
      && c[1 + d] == "generate " + processes[0]
      && (forall k :: 1 <= k < p ==> c[1 + d + k] == "add process " + processes[k])
      && c[|c| - 1] == "output " + output
  {
    HeadAt(PreCommands(model, definitions, processes, output).value, model, definitions, processes, ["output " + output], []);
  }

  /** The commands of one launch, in order: launch, sub-runs, shower, detector, one `set` per setting, one line per card. */
  function LaunchCommands(output: string, multiRun: int, shower: string, detector: string,
                          settings: Dict<string, Setting>, cards: seq<string>): (ls: seq<string>)
    ensures |ls| == 4 + |settings| + |cards|
    ensures ls[0] == "launch -i " + output && ls[1] == "multi_run " + IntToString(multiRun)
    ensures ls[2] == "shower=" + shower && ls[3] == "detector=" + detector
    ensures forall k :: 0 <= k < |settings| ==> ls[4 + k] == "set " + settings[k].0 + " " + Show(settings[k].1)
    ensures forall k :: 0 <= k < |cards| ==> ls[4 + |settings| + k] == cards[k]
  {
    var head := ["launch -i " + output, "multi_run " + IntToString(multiRun), "shower=" + shower, "detector=" + detector];
    var sets := SetLines(settings);
    var ls := head + sets + cards;
    assert forall k :: 0 <= k < |sets| ==> ls[4 + k] == sets[k];
    assert forall k :: 0 <= k < |cards| ==> ls[4 + |sets| + k] == cards[k];
    ls
  }

  // ---------------------------------------------------------------------------
  // Run names

  /** `f"{n:02d}"` for a non-negative `n`: the numeral, padded with a zero to two digits. */
  function TwoDigits(n: nat): (s: string)
    ensures |s| >= 2 && AllDigits(s)
    ensures n < 100 ==> |s| == 2
    ensures n >= 10 ==> s == NatToString(n)
  {
    var t := NatToString(n);
    if |t| < 2 then "0" + t
    else
      assert n < 10 ==> |t| == 1;
      assert n < 100 ==> n / 10 < 10 && |NatToString(n / 10)| == 1;
      t
  }

  /** The padded numeral reads back as the number. */
  lemma TwoDigitsValue(n: nat)
    ensures DigitsValue(TwoDigits(n)) == n
  {
    var t := NatToString(n);
    ValueOfNatToString(n);
    if |t| < 2 {
      var s := TwoDigits(n);
      DigitsValueLeadingZero(s);
      assert s[1..] == t;
    }
  }

  /** `run_` and the count of existing runs plus one, in at least two digits. */
  function RunName(nBanners: nat): (name: string)
    ensures StartsWith(name, "run_") && |name| >= 6
  {
    var name := "run_" + TwoDigits(nBanners + 1);
    assert name[..4] == "run_";
    name
  }

  /** The number in a run name reads back as the count of existing runs plus one. */
  lemma RunNameNumber(n: nat)
    ensures DigitsValue(RunName(n)[4..]) == n + 1
  {
    var d := TwoDigits(n + 1);
    assert RunName(n) == "run_" + d;
    assert RunName(n)[4..] == d;
    TwoDigitsValue(n + 1);
  }

  /** Distinct run counts give distinct run names. */
  lemma RunNameInjective(m: nat, n: nat)
    requires RunName(m) == RunName(n)
    ensures m == n
  {
    RunNameNumber(m);
    RunNameNumber(n);
  }

  /** No run name is the key of the `pre` commands. */
  lemma RunNameNotPre(n: nat)
    ensures RunName(n) != "pre"
  {
    assert RunName(n)[0] == 'r';
  }

  // ---------------------------------------------------------------------------
  // The process card of an existing output

  /** What `from_output` collects from `Cards/proc_card_mg5.dat`. */
  datatype ProcCard = ProcCard(model: string, definitions: Dict<string, string>, processes: seq<string>)

  /** The process a `generate` or `add process` line adds, if any. */
  function ProcessOf(line: string): seq<string> {
    (if StartsWith(line, "generate") then [Strip(ReplaceAll(line, "generate ", ""))] else [])
    + (if StartsWith(line, "add process") then [Strip(ReplaceAll(line, "add process ", ""))] else [])
  }

  /**
   * One line of the card, its four tests in order: an `import model` line with
   * fewer than three words raises IndexError, a `define` line that does not split
   * into exactly two pieces at `=` raises ValueError.
   */
  function ReadLine(c: ProcCard, line: string): (r: Result<ProcCard>)
    ensures r.Err? ==> r.error == IndexError || r.error == ValueError
    ensures r.Err? <==>
      (StartsWith(line, "import model") && |Words(line)| < 3)
      || (StartsWith(line, "define") && |SplitOn(ReplaceAll(line, "define ", ""), "=")| != 2)
    ensures r.Ok? ==> r.value.processes == c.processes + ProcessOf(line)
    ensures r.Ok? ==> r.value.model == if StartsWith(line, "import model") then Words(line)[2] else c.model
    ensures r.Ok? ==> r.value.definitions == if StartsWith(line, "define") then
        var parts := SplitOn(ReplaceAll(line, "define ", ""), "=");
        Set(c.definitions, Strip(parts[0]), Strip(parts[1]))
      else c.definitions
  {
    var isImport := StartsWith(line, "import model");
    var isDefine := StartsWith(line, "define");
    var parts := SplitOn(ReplaceAll(line, "define ", ""), "=");
    if isImport && |Words(line)| < 3 then Err(IndexError)
    else
      var c1 := if isImport then c.(model := Words(line)[2]) else c;
      if isDefine && |parts| != 2 then Err(ValueError)
      else
        var c2 := if isDefine then c1.(definitions := Set(c1.definitions, Strip(parts[0]), Strip(parts[1]))) else c1;
        Ok(c2.(processes := c2.processes + ProcessOf(line)))
  }

  /** The card read line by line from the defaults: model `sm`, no definitions, no processes. */
  function ReadProcCard(lines: seq<string>): Result<ProcCard>
    decreases |lines|
  {
    if |lines| == 0 then Ok(ProcCard("sm", [], []))
    else
      var c :- ReadProcCard(lines[..|lines| - 1]);
      ReadLine(c, lines[|lines| - 1])
  }

  /** The processes of the card's `generate` and `add process` lines, in file order. */
  function ProcessesOf(lines: seq<string>): seq<string>
    decreases |lines|
  {
    if |lines| == 0 then [] else ProcessesOf(lines[..|lines| - 1]) + ProcessOf(lines[|lines| - 1])
  }

  /** The last `import model` line, if any. */
  function LastImport(lines: seq<string>): (r: Option<string>)
    ensures r.Some? ==> StartsWith(r.value, "import model")
    decreases |lines|
  {
    if |lines| == 0 then None
    else if StartsWith(lines[|lines| - 1], "import model") then Some(lines[|lines| - 1])
    else LastImport(lines[..|lines| - 1])
  }

  /**
   * A card that reads: its processes are those of its lines in file order, its
   * model is the third word of the last `import model` line or `sm` without one,
   * and its definitions have distinct keys.
   */
  lemma {:induction false} ReadProcCardSpec(lines: seq<string>)
    requires ReadProcCard(lines).Ok?
    ensures var c := ReadProcCard(lines).value;
      && c.processes == ProcessesOf(lines)
      && DistinctKeys(c.definitions)
      && (LastImport(lines).None? ==> c.model == "sm")
      && (LastImport(lines).Some? ==> |Words(LastImport(lines).value)| >= 3 && c.model == Words(LastImport(lines).value)[2])
    decreases |lines|
  {
    if |lines| > 0 {
      var init := lines[..|lines| - 1];
      var line := lines[|lines| - 1];
      ReadProcCardSpec(init);
      var c := ReadProcCard(init).value;
      if StartsWith(line, "define") {
        var parts := SplitOn(ReplaceAll(line, "define ", ""), "=");
        SetKeepsDistinct(c.definitions, Strip(parts[0]), Strip(parts[1]));
      }
    }
  }

  /** A card without `import model` and `define` lines always reads. */
  lemma {:induction false} ReadProcCardNoErrors(lines: seq<string>)
    requires forall k :: 0 <= k < |lines| ==> !StartsWith(lines[k], "import model") && !StartsWith(lines[k], "define")
    ensures ReadProcCard(lines).Ok?
    decreases |lines|
  {
    if |lines| > 0 {
      var init := lines[..|lines| - 1];
      assert forall k :: 0 <= k < |init| ==> init[k] == lines[k];
      ReadProcCardNoErrors(init);
    }
  }

  /** A `define` line splitting into two pieces stores the stripped value under the stripped key. */
  lemma DefineLineStores(c: ProcCard, line: string)
    requires StartsWith(line, "define") && !StartsWith(line, "import model")
    requires |SplitOn(ReplaceAll(line, "define ", ""), "=")| == 2
    ensures var parts := SplitOn(ReplaceAll(line, "define ", ""), "=");
      Get(ReadLine(c, line).value.definitions, Strip(parts[0])) == Some(Strip(parts[1]))
  {
    var parts := SplitOn(ReplaceAll(line, "define ", ""), "=");
    GetSet(c.definitions, Strip(parts[0]), Strip(parts[1]), Strip(parts[0]));
  }

  /** Once a prefix fails, the whole card fails with the same error. */
  lemma {:induction false} ReadProcCardStops(lines: seq<string>, i: nat)
    requires i < |lines| && ReadProcCard(lines[..i + 1]).Err?
    ensures ReadProcCard(lines) == Err(ReadProcCard(lines[..i + 1]).error)
    decreases |lines|
  {
    if |lines| == i + 1 {
      assert lines[..i + 1] == lines;
    } else {
      var init := lines[..|lines| - 1];
      assert init[..i + 1] == lines[..i + 1];
      ReadProcCardStops(init, i);
    }
  }

  /** The body of the `from_output` loop for one line. */
  method ReadCardLine(c: ProcCard, line: string) returns (r: Result<ProcCard>)
    ensures r == ReadLine(c, line)
  {
    var model := c.model;
    var definitions := c.definitions;
    var processes := c.processes;
    if StartsWith(line, "import model") {
      var words := Words(line);
      if |words| < 3 {
        return Err(IndexError);
      }
      model := words[2];
    }
    if StartsWith(line, "define") {
      var parts := SplitOn(ReplaceAll(line, "define ", ""), "=");
      if |parts| != 2 {
        return Err(ValueError);
      }
      definitions := Set(definitions, Strip(parts[0]), Strip(parts[1]));
    }
    if StartsWith(line, "generate") {
      processes := processes + [Strip(ReplaceAll(line, "generate ", ""))];
    }
    if StartsWith(line, "add process") {
      processes := processes + [Strip(ReplaceAll(line, "add process ", ""))];
    }
    assert processes == c.processes + ProcessOf(line);
    return Ok(ProcCard(model, definitions, processes));
  }

  /** The loop of `from_output` over the card's lines. */
  method ReadCardLines(lines: seq<string>) returns (r: Result<ProcCard>)
    ensures r == ReadProcCard(lines)
  {
    var card := ProcCard("sm", [], []);
    var i := 0;
    while i < |lines|
      invariant 0 <= i <= |lines|
      invariant ReadProcCard(lines[..i]) == Ok(card)
    {
      assert lines[..i + 1][..i] == lines[..i];
      var next := ReadCardLine(card, lines[i]);
      if next.Err? {
        ReadProcCardStops(lines, i);
        return next;
      }
      card := next.value;
      i := i + 1;
    }
    assert lines[..i] == lines;
    return Ok(card);
  }

  // ---------------------------------------------------------------------------
  // Monitoring a launched run

  /** The markers looked for in the new part of the log, in order, and the status each prints. */
  const Markers: seq<string> := ["Running Survey", "Running Pythia8", "Running Delphes", "storing files"]
  const Statuses: seq<string> := ["Running Survey", "Running Pythia8", "Running Delphes", "Storing files"]
  /** The index of `storing files`, the marker that ends each sub-run. */
  const StoringFiles: nat := 3

  /** The state of `_check_status`: the current sub-run, the last marker index shown, and what has been printed. */
  datatype Monitor = Monitor(currentRun: int, lastKnown: int, printed: seq<string>)

  /** Marker `idx` tested against one chunk of new log text. */
  function MarkerStep(m: Monitor, content: string, idx: nat, multiRun: int, verbose: bool): (r: Monitor)
    requires idx < |Markers|
    ensures !(Contains(content, Markers[idx]) && idx > m.lastKnown) ==> r == m
    ensures Contains(content, Markers[idx]) && idx > m.lastKnown && idx != StoringFiles ==>
      r == Monitor(m.currentRun, idx, m.printed + if verbose then [Statuses[idx]] else [])
    ensures Contains(content, Markers[idx]) && idx > m.lastKnown && idx == StoringFiles ==>
      && r.currentRun == m.currentRun + 1
      && r.lastKnown == (if r.currentRun > multiRun then StoringFiles else -1)
      && r.printed == m.printed + if verbose then [Statuses[idx], ""] else []
  {
    if Contains(content, Markers[idx]) && idx > m.lastKnown then
      var printed := if verbose then m.printed + [Statuses[idx]] else m.printed;
      if idx == StoringFiles then
        var run := m.currentRun + 1;
        Monitor(run, if run > multiRun then idx else -1, if verbose then printed + [""] else printed)
      else Monitor(m.currentRun, idx, printed)
    else m
  }

  /** The markers from `idx` on tested against one chunk. */
  function ScanFrom(m: Monitor, content: string, idx: nat, multiRun: int, verbose: bool): Monitor
    requires idx <= |Markers|
    decreases |Markers| - idx
  {
    if idx == |Markers| then m
    else ScanFrom(MarkerStep(m, content, idx, multiRun, verbose), content, idx + 1, multiRun, verbose)
  }

  /** The state after the chunks read by successive polls. */
  function Poll(m: Monitor, chunks: seq<string>, multiRun: int, verbose: bool): Monitor
    decreases |chunks|
  {
    if |chunks| == 0 then m
    else ScanFrom(Poll(m, chunks[..|chunks| - 1], multiRun, verbose), chunks[|chunks| - 1], 0, multiRun, verbose)
  }

  /** The whole monitoring: start at sub-run 1 with nothing shown, poll every chunk, then `Done`. */
  function Monitoring(chunks: seq<string>, multiRun: int, verbose: bool): Monitor {
    var m := Poll(Monitor(1, -1, []), chunks, multiRun, verbose);
    if verbose then m.(printed := m.printed + ["Done"]) else m
  }

  /** A state the monitor can be in: a known marker index, and past the last sub-run only at `storing files`. */
  predicate Sane(m: Monitor, multiRun: int) {
    && -1 <= m.lastKnown <= StoringFiles
    && 1 <= m.currentRun <= multiRun + 1
    && (m.currentRun > multiRun ==> m.lastKnown == StoringFiles)
  }

  lemma MarkerStepSane(m: Monitor, content: string, idx: nat, multiRun: int, verbose: bool)
    requires idx < |Markers| && Sane(m, multiRun)
    ensures Sane(MarkerStep(m, content, idx, multiRun, verbose), multiRun)
    ensures MarkerStep(m, content, idx, multiRun, verbose).currentRun >= m.currentRun
  {
  }

  lemma {:induction false} ScanFromSane(m: Monitor, content: string, idx: nat, multiRun: int, verbose: bool)
    requires idx <= |Markers| && Sane(m, multiRun)
    ensures Sane(ScanFrom(m, content, idx, multiRun, verbose), multiRun)
    ensures ScanFrom(m, content, idx, multiRun, verbose).currentRun >= m.currentRun
    decreases |Markers| - idx
  {
    if idx < |Markers| {
      MarkerStepSane(m, content, idx, multiRun, verbose);
      ScanFromSane(MarkerStep(m, content, idx, multiRun, verbose), content, idx + 1, multiRun, verbose);
    }
  }

  /**
   * Polling keeps the monitor sane and never moves the sub-run back, so `storing
   * files` is counted at most `multi_run` times.
   */
  lemma {:induction false} PollSane(m: Monitor, chunks: seq<string>, multiRun: int, verbose: bool)
    requires Sane(m, multiRun)
    ensures Sane(Poll(m, chunks, multiRun, verbose), multiRun)
    ensures Poll(m, chunks, multiRun, verbose).currentRun >= m.currentRun
    decreases |chunks|
  {
    if |chunks| > 0 {
      var init := chunks[..|chunks| - 1];
      PollSane(m, init, multiRun, verbose);
      ScanFromSane(Poll(m, init, multiRun, verbose), chunks[|chunks| - 1], 0, multiRun, verbose);
    }
  }

  /** With at least one sub-run the monitoring ends sane, having counted no more sub-runs than there are. */
  lemma MonitoringBounded(chunks: seq<string>, multiRun: int, verbose: bool)
    requires multiRun >= 1
    ensures Sane(Monitoring(chunks, multiRun, verbose), multiRun)
  {
    PollSane(Monitor(1, -1, []), chunks, multiRun, verbose);
  }

  /** After the last sub-run has stored its files, no marker fires again. */
  lemma {:induction false} ScanFromQuiet(m: Monitor, content: string, idx: nat, multiRun: int, verbose: bool)
    requires idx <= |Markers| && m.lastKnown == StoringFiles
    ensures ScanFrom(m, content, idx, multiRun, verbose) == m
    decreases |Markers| - idx
  {
    if idx < |Markers| {
      ScanFromQuiet(m, content, idx + 1, multiRun, verbose);
    }
  }

  lemma {:induction false} PollQuiet(m: Monitor, chunks: seq<string>, multiRun: int, verbose: bool)
    requires m.lastKnown == StoringFiles
    ensures Poll(m, chunks, multiRun, verbose) == m
    decreases |chunks|
  {
    if |chunks| > 0 {
      PollQuiet(m, chunks[..|chunks| - 1], multiRun, verbose);
      ScanFromQuiet(m, chunks[|chunks| - 1], 0, multiRun, verbose);
    }
  }

  /** Silent monitoring prints nothing. */
  lemma {:induction false} PollSilent(m: Monitor, chunks: seq<string>, multiRun: int)
    ensures Poll(m, chunks, multiRun, false).printed == m.printed
    decreases |chunks|
  {
    if |chunks| > 0 {
      var p := Poll(m, chunks[..|chunks| - 1], multiRun, false);
      PollSilent(m, chunks[..|chunks| - 1], multiRun);
      ScanFromSilent(p, chunks[|chunks| - 1], 0, multiRun);
    }
  }

  lemma {:induction false} ScanFromSilent(m: Monitor, content: string, idx: nat, multiRun: int)
    requires idx <= |Markers|
    ensures ScanFrom(m, content, idx, multiRun, false).printed == m.printed
    decreases |Markers| - idx
  {
    if idx < |Markers| {
      ScanFromSilent(MarkerStep(m, content, idx, multiRun, false), content, idx + 1, multiRun);
    }
  }

  // ---------------------------------------------------------------------------
  // The generator

  class Madgraph5 {
    const model: string
    const definitions: Dict<string, string>
    const processes: seq<string>
    const output: string
    /** The command lists recorded so far: `pre`, then one per launched run. */
    var commands: Dict<string, seq<string>>
    var shower: string
    var detector: string
    var settings: Dict<string, Setting>
    var cards: seq<string>
    var multiRun: int

    /** A generator whose `pre` commands are already built; the launch fields wait for `launch`. */
    constructor(processes: seq<string>, model: string, definitions: Dict<string, string>, output: string, pre: seq<string>)
      ensures this.processes == processes && this.model == model && this.definitions == definitions
      ensures this.output == output && commands == [("pre", pre)]
      ensures shower == "off" && detector == "off" && settings == [] && cards == [] && multiRun == 1
    {
      this.processes := processes;
      this.model := model;
      this.definitions := definitions;
      this.output := output;
      commands := [("pre", pre)];
      shower := "off";
      detector := "off";
      settings := [];
      cards := [];
      multiRun := 1;
    }

    /**
     * `launch` up to starting MadGraph5: an unknown shower or detector raises
     * ValueError before any field is assigned; otherwise the fields are set and the
     * command list is recorded under the new run's name, which is returned.
     * `nBanners` is the number of banners already in the output's `Events`.
     */
    method Launch(shower: string, detector: string, settings: Dict<string, Setting>, cards: seq<string>,
                  multiRun: int, nBanners: nat) returns (r: Result<string>)
      modifies this`shower, this`detector, this`settings, this`cards, this`multiRun, this`commands
      ensures !(shower == "off" || shower == "pythia8") || !(detector == "off" || detector == "delphes") ==>
        r == Err(ValueError) && unchanged(this)
      ensures (shower == "off" || shower == "pythia8") && (detector == "off" || detector == "delphes") ==>
        && r == Ok(RunName(nBanners))
        && this.shower == shower && this.detector == detector && this.settings == settings
        && this.cards == cards && this.multiRun == multiRun
        && commands == Set(old(commands), RunName(nBanners), LaunchCommands(output, multiRun, shower, detector, settings, cards))
    {
      if shower != "off" && shower != "pythia8" {
        return Err(ValueError);
      }
      if detector != "off" && detector != "delphes" {
        return Err(ValueError);
      }
      this.shower := shower;
      this.detector := detector;
      this.settings := settings;
      this.cards := cards;
      this.multiRun := multiRun;
      var cmds := LaunchCommands(output, multiRun, shower, detector, settings, cards);
      var runName := RunName(nBanners);
      commands := Set(commands, runName, cmds);
      return Ok(runName);
    }

    /**
     * `_check_status`: every poll reads the chunk of log written since the last
     * one and tests the markers in order; `Done` once the process has finished.
     */
    method CheckStatus(chunks: seq<string>, verbose: bool) returns (m: Monitor)
      ensures m == Monitoring(chunks, multiRun, verbose)
    {
      m := Monitor(1, -1, []);
      var i := 0;
      while i < |chunks|
        invariant 0 <= i <= |chunks|
        invariant m == Poll(Monitor(1, -1, []), chunks[..i], multiRun, verbose)
      {
        assert chunks[..i + 1][..i] == chunks[..i];
        var content := chunks[i];
        ghost var start := m;
        var idx := 0;
        while idx < |Markers|
          invariant 0 <= idx <= |Markers|
          invariant ScanFrom(start, content, 0, multiRun, verbose) == ScanFrom(m, content, idx, multiRun, verbose)
        {
          if Contains(content, Markers[idx]) && idx > m.lastKnown {
            if verbose {
              m := m.(printed := m.printed + [Statuses[idx]]);
            }
            if idx == StoringFiles {
              m := m.(currentRun := m.currentRun + 1);
              if m.currentRun > multiRun {
                m := m.(lastKnown := idx);
              } else {
                m := m.(lastKnown := -1);
              }
              if verbose {
                m := m.(printed := m.printed + [""]);
              }
            } else {
              m := m.(lastKnown := idx);
            }
          }
          idx := idx + 1;
        }
        i := i + 1;
      }
      assert chunks[..i] == chunks;
      if verbose {
        m := m.(printed := m.printed + ["Done"]);
      }
    }
  }

  /** The launch records its commands under its run name and keeps the `pre` commands. */
  lemma LaunchKeepsPre(commands: Dict<string, seq<string>>, nBanners: nat, cmds: seq<string>)
    ensures Get(Set(commands, RunName(nBanners), cmds), RunName(nBanners)) == Some(cmds)
    ensures Get(Set(commands, RunName(nBanners), cmds), "pre") == Get(commands, "pre")
  {
    RunNameNotPre(nBanners);
    GetSet(commands, RunName(nBanners), cmds, RunName(nBanners));
    GetSet(commands, RunName(nBanners), cmds, "pre");
  }

  /** `Madgraph5(...)` up to creating the output: IndexError without a process, else the `pre` commands recorded. */
  method NewMadgraph5(processes: seq<string>, model: string, definitions: Dict<string, string>, output: string)
    returns (r: Result<Madgraph5>)
    ensures |processes| == 0 ==> r == Err(IndexError)
    ensures |processes| > 0 ==>
      && r.Ok? && fresh(r.value)
      && r.value.processes == processes && r.value.model == model
      && r.value.definitions == definitions && r.value.output == output
      && r.value.commands == [("pre", PreCommands(model, definitions, processes, output).value)]
  {
    var pre := PreCommands(model, definitions, processes, output);
    if pre.Err? {
      return Err(pre.error);
    }
    var g := new Madgraph5(processes, model, definitions, output, pre.value);
    return Ok(g);
  }

  /**
   * `from_output` once the output exists: the card's lines read in order, then a
   * generator from what they name; the errors of the card, then those of creation.
   */
  method FromOutput(lines: seq<string>, output: string) returns (r: Result<Madgraph5>)
    ensures ReadProcCard(lines).Err? ==> r == Err(ReadProcCard(lines).error)
    ensures ReadProcCard(lines).Ok? && |ReadProcCard(lines).value.processes| == 0 ==> r == Err(IndexError)
    ensures ReadProcCard(lines).Ok? && |ReadProcCard(lines).value.processes| > 0 ==>
      var c := ReadProcCard(lines).value;
      && r.Ok? && fresh(r.value)
      && r.value.processes == c.processes && r.value.model == c.model
      && r.value.definitions == c.definitions && r.value.output == output
  {
    var card := ReadCardLines(lines);
    if card.Err? {
      return Err(card.error);
    }
    r := NewMadgraph5(card.value.processes, card.value.model, card.value.definitions, output);
  }
}
