/**
 * The command-building parts of `Madgraph5` (hml/generators.py): the validated
 * shower and detector options, the settings the run parameters write, the
 * number of sub-runs, the command list handed to MadGraph5, the random-seed
 * rewriting of Pythia8 and Delphes cards, and the status read back from a log.
 * Files, processes and paths are left to the caller: cards and logs are
 * sequences of lines.
 */
module Generators {
  import opened Wrappers
  import opened Strings
  import opened Dicts

  /** A value of the settings dict: the integers the run parameters write, or text. */
  datatype Setting = Int(n: int) | Text(s: string)

  /** `str(v)` of a setting. */
  function Show(v: Setting): string {
    match v
    case Int(n) => IntToString(n)
    case Text(s) => s
  }

  predicate ShowerSupported(shower: string) {
    Lower(shower) == "off" || Lower(shower) == "pythia8"
  }

  predicate DetectorSupported(detector: string) {
    Lower(detector) == "off" || Lower(detector) == "delphes"
  }

  /** Python's `divmod` on integers: floor division, the remainder taking the sign of the divisor. */
  function DivMod(a: int, b: int): (r: (int, int))
    requires b != 0
    ensures r.0 * b + r.1 == a
    ensures b > 0 ==> 0 <= r.1 < b
    ensures b < 0 ==> b < r.1 <= 0
  {
    if b > 0 then (a / b, a % b)
    else
      var q := (-a) / (-b);
      var m := (-a) % (-b);
      assert q * (-b) + m == -a;
      (q, a - q * b)
  }

  /**
   * `n_subruns`: 1 when one sub-run holds every event, otherwise the quotient
   * rounded up; ZeroDivisionError for zero events per sub-run below the total.
   */
  function NSubruns(nEvents: int, perSubrun: int): (r: Result<int>)
    ensures perSubrun >= nEvents ==> r == Ok(1)
    ensures perSubrun < nEvents ==> (r.Err? <==> perSubrun == 0)
    ensures r.Err? ==> r.error == ZeroDivisionError
  {
    if perSubrun >= nEvents then Ok(1)
    else if perSubrun == 0 then Err(ZeroDivisionError)
    else
      var (q, rest) := DivMod(nEvents, perSubrun);
      if rest != 0 then Ok(q + 1) else Ok(q)
  }

  /** With `0 < per < n`, the sub-runs hold every event and one fewer would not. */
  lemma NSubrunsCover(nEvents: int, perSubrun: int)
    requires 0 < perSubrun < nEvents
    ensures var k := NSubruns(nEvents, perSubrun).value;
      k * perSubrun >= nEvents && (k - 1) * perSubrun < nEvents && k >= 2
  {
    var (q, rest) := DivMod(nEvents, perSubrun);
    var k := NSubruns(nEvents, perSubrun).value;
    assert q * perSubrun == nEvents - rest;
    if rest != 0 {
      assert k == q + 1;
      assert k * perSubrun == q * perSubrun + perSubrun;
    } else {
      assert k == q;
      assert (k - 1) * perSubrun == q * perSubrun - perSubrun;
    }
  }

  /** One `define k = v` line per definition, in order. */
  function DefineLines(definitions: Dict<string, string>): (ls: seq<string>)
    ensures |ls| == |definitions|
    ensures forall k :: 0 <= k < |definitions| ==> ls[k] == "define " + definitions[k].0 + " = " + definitions[k].1
  {
    seq(|definitions|, k requires 0 <= k < |definitions| => "define " + definitions[k].0 + " = " + definitions[k].1)
  }

  /** One `add process p` line per process, in order. */
  function AddLines(processes: seq<string>): (ls: seq<string>)
    ensures |ls| == |processes| && forall k :: 0 <= k < |processes| ==> ls[k] == "add process " + processes[k]
  {
    seq(|processes|, k requires 0 <= k < |processes| => "add process " + processes[k])
  }

  /** One `set k v` line per setting, in order. */
  function SetLines(settings: Dict<string, Setting>): (ls: seq<string>)
    ensures |ls| == |settings|
    ensures forall k :: 0 <= k < |settings| ==> ls[k] == "set " + settings[k].0 + " " + Show(settings[k].1)
  {
    seq(|settings|, k requires 0 <= k < |settings| => "set " + settings[k].0 + " " + Show(settings[k].1))
  }

  // ---------------------------------------------------------------------------
  // Card seeds

  /** Some line of `ls` satisfies `p`. */
  predicate AnyLine(ls: seq<string>, p: string -> bool) {
    exists i :: 0 <= i < |ls| && p(ls[i])
  }

  lemma AnyLineStep(ls: seq<string>, i: int, p: string -> bool)
    requires 0 <= i < |ls|
    ensures AnyLine(ls[..i + 1], p) <==> AnyLine(ls[..i], p) || p(ls[i])
  {
    assert ls[..i + 1][i] == ls[i];
    assert forall j :: 0 <= j < i ==> ls[..i + 1][j] == ls[..i][j];
  }

  /** A text that differs from `p` at a position `p` has is not one `p` starts. */
  lemma NotPrefixAt(s: string, p: string, i: int)
    requires 0 <= i < |p| && (i < |s| ==> s[i] != p[i])
    ensures !StartsWith(s, p)
  {
  }

  const SetSeedOn := "Random:setSeed = on\n"

  function Pythia8SeedLine(seed: int): string {
    "Random:seed = " + IntToString(seed) + "\n"
  }

  predicate IsPythia8Seed(line: string) {
    StartsWith(line, "Random:seed")
  }

  predicate IsPythia8SetSeed(line: string) {
    StartsWith(line, "Random:setSeed = on")
  }

  /** One line of a Pythia8 card after the rewrite. */
  function Pythia8Line(line: string, seed: int): (out: string)
    ensures IsPythia8Seed(line) ==> out == Pythia8SeedLine(seed)
    ensures !IsPythia8Seed(line) ==> out == line
  {
    if IsPythia8Seed(line) then Pythia8SeedLine(seed) else line
  }

  /**
   * A Pythia8 card with its seed set: every `Random:seed` line replaced, other lines
   * kept; both settings appended when `Random:setSeed = on` is missing, the seed
   * line alone when only it is missing.
   */
  function Pythia8Card(lines: seq<string>, seed: int): (out: seq<string>)
    ensures |lines| <= |out| <= |lines| + 2
    ensures forall i :: 0 <= i < |lines| ==> out[i] == Pythia8Line(lines[i], seed)
    ensures !AnyLine(lines, IsPythia8SetSeed) ==> out[|lines|..] == [SetSeedOn, Pythia8SeedLine(seed)]
    ensures AnyLine(lines, IsPythia8SetSeed) && !AnyLine(lines, IsPythia8Seed) ==> out[|lines|..] == [Pythia8SeedLine(seed)]
    ensures AnyLine(lines, IsPythia8SetSeed) && AnyLine(lines, IsPythia8Seed) ==> |out| == |lines|
  {
    var replaced := seq(|lines|, i requires 0 <= i < |lines| => Pythia8Line(lines[i], seed));
    if !AnyLine(lines, IsPythia8SetSeed) then replaced + [SetSeedOn, Pythia8SeedLine(seed)]
    else if !AnyLine(lines, IsPythia8Seed) then replaced + [Pythia8SeedLine(seed)]
    else replaced
  }

  /** The two lines the rewrite writes are told apart by their prefixes. */
  lemma Pythia8Lines(seed: int)
    ensures IsPythia8Seed(Pythia8SeedLine(seed)) && !IsPythia8SetSeed(Pythia8SeedLine(seed))
    ensures IsPythia8SetSeed(SetSeedOn) && !IsPythia8Seed(SetSeedOn)
  {
    var l := Pythia8SeedLine(seed);
    assert l == "Random:seed = " + (IntToString(seed) + "\n");
    assert l[..11] == "Random:seed";
    NotPrefixAt(l, "Random:setSeed = on", 9);
    assert SetSeedOn[..19] == "Random:setSeed = on";
    NotPrefixAt(SetSeedOn, "Random:seed", 9);
  }

  /** A line that turns seeding on is not a seed line. */
  lemma SetSeedIsNotSeed(line: string)
    requires IsPythia8SetSeed(line)
    ensures !IsPythia8Seed(line)
  {
    assert line[..19][9] == line[9];
    NotPrefixAt(line, "Random:seed", 9);
  }

  /** After the rewrite the card turns seeding on, and every seed line carries the seed. */
  lemma Pythia8Seeded(lines: seq<string>, seed: int)
    ensures var out := Pythia8Card(lines, seed);
      && AnyLine(out, IsPythia8SetSeed)
      && (exists i :: 0 <= i < |out| && out[i] == Pythia8SeedLine(seed))
      && forall i :: 0 <= i < |out| && IsPythia8Seed(out[i]) ==> out[i] == Pythia8SeedLine(seed)
  {
    var out := Pythia8Card(lines, seed);
    Pythia8Lines(seed);
    if AnyLine(lines, IsPythia8SetSeed) {
      var i :| 0 <= i < |lines| && IsPythia8SetSeed(lines[i]);
      SetSeedIsNotSeed(lines[i]);
      assert out[i] == lines[i];
      if AnyLine(lines, IsPythia8Seed) {
        var j :| 0 <= j < |lines| && IsPythia8Seed(lines[j]);
        assert out[j] == Pythia8SeedLine(seed);
      } else {
        assert out[|lines|] == out[|lines|..][0];
      }
    } else {
      assert out[|lines|] == out[|lines|..][0];
      assert out[|lines| + 1] == out[|lines|..][1];
    }
  }

  /** Rewriting a rewritten card with the same seed changes nothing. */
  lemma Pythia8Idempotent(lines: seq<string>, seed: int)
    ensures Pythia8Card(Pythia8Card(lines, seed), seed) == Pythia8Card(lines, seed)
  {
    var out := Pythia8Card(lines, seed);
    Pythia8Seeded(lines, seed);
    Pythia8Lines(seed);
    var j :| 0 <= j < |out| && out[j] == Pythia8SeedLine(seed);
    assert IsPythia8Seed(out[j]);
    var again := Pythia8Card(out, seed);
    assert |again| == |out|;
    assert forall i :: 0 <= i < |out| ==> again[i] == out[i];
  }

  /** One pass of the Pythia8 rewrite loop: line `i` is rewritten, and the flags note seed lines. */
  method SeedPythia8Line(lines: seq<string>, seed: int, i: nat, out: seq<string>, setSeed: bool, found: bool)
    returns (out': seq<string>, setSeed': bool, found': bool)
    requires i < |lines| && |out| == |lines|
    requires forall j :: 0 <= j < |lines| ==> out[j] == if j < i then Pythia8Line(lines[j], seed) else lines[j]
    requires setSeed == AnyLine(lines[..i], IsPythia8SetSeed)
    requires found == AnyLine(lines[..i], IsPythia8Seed)
    ensures |out'| == |lines|
    ensures forall j :: 0 <= j < |lines| ==> out'[j] == if j <= i then Pythia8Line(lines[j], seed) else lines[j]
    ensures setSeed' == AnyLine(lines[..i + 1], IsPythia8SetSeed)
    ensures found' == AnyLine(lines[..i + 1], IsPythia8Seed)
  {
    AnyLineStep(lines, i, IsPythia8SetSeed);
    AnyLineStep(lines, i, IsPythia8Seed);
    Pythia8Pass(lines, seed, i, out);
    out', setSeed', found' := out, setSeed, found;
    if IsPythia8SetSeed(lines[i]) {
      setSeed' := true;
    }
    if IsPythia8Seed(lines[i]) {
      found' := true;
      out' := out[i := Pythia8SeedLine(seed)];
    }
  }

  /** Rewriting line `i` extends the rewritten prefix by one line. */
  lemma Pythia8Pass(lines: seq<string>, seed: int, i: nat, out: seq<string>)
    requires i < |lines| && |out| == |lines|
    requires forall j :: 0 <= j < |lines| ==> out[j] == if j < i then Pythia8Line(lines[j], seed) else lines[j]
    ensures var out' := if IsPythia8Seed(lines[i]) then out[i := Pythia8SeedLine(seed)] else out;
      |out'| == |lines| && forall j :: 0 <= j < |lines| ==> out'[j] == if j <= i then Pythia8Line(lines[j], seed) else lines[j]
  {
  }

  /** The rewrite loop of `launch` for a card whose name starts with `pythia8`. */
  method SeedPythia8Card(lines: seq<string>, seed: int) returns (out: seq<string>)
    ensures out == Pythia8Card(lines, seed)
  {
    out := lines;
    var setSeed := false;
    var found := false;
    var i := 0;
    while i < |lines|
      invariant 0 <= i <= |lines| && |out| == |lines|
      invariant forall j :: 0 <= j < |lines| ==> out[j] == if j < i then Pythia8Line(lines[j], seed) else lines[j]
      invariant setSeed == AnyLine(lines[..i], IsPythia8SetSeed)
      invariant found == AnyLine(lines[..i], IsPythia8Seed)
    {
      out, setSeed, found := SeedPythia8Line(lines, seed, i, out, setSeed, found);
      i := i + 1;
    }
    assert lines[..i] == lines;
    if !setSeed {
      out := out + [SetSeedOn];
      out := out + [Pythia8SeedLine(seed)];
    } else if !found {
      out := out + [Pythia8SeedLine(seed)];
    }
  }

  function DelphesSeedLine(seed: int): string {
    "set RandomSeed " + IntToString(seed) + "\n"
  }

  predicate IsDelphesSeed(line: string) {
    StartsWith(line, "set RandomSeed")
  }

  /** One line of a Delphes card after the rewrite. */
  function DelphesLine(line: string, seed: int): (out: string)
    ensures IsDelphesSeed(line) ==> out == DelphesSeedLine(seed)
    ensures !IsDelphesSeed(line) ==> out == line
  {
    if IsDelphesSeed(line) then DelphesSeedLine(seed) else line
  }

  /** A Delphes card with its seed set: every `set RandomSeed` line replaced, or one put in front when there is none. */
  function DelphesCard(lines: seq<string>, seed: int): (out: seq<string>)
    ensures AnyLine(lines, IsDelphesSeed) ==>
      |out| == |lines| && forall i :: 0 <= i < |lines| ==> out[i] == DelphesLine(lines[i], seed)
    ensures !AnyLine(lines, IsDelphesSeed) ==> out == [DelphesSeedLine(seed)] + lines
  {
    var replaced := seq(|lines|, i requires 0 <= i < |lines| => DelphesLine(lines[i], seed));
    if AnyLine(lines, IsDelphesSeed) then replaced
    else
      assert replaced == lines;
      [DelphesSeedLine(seed)] + replaced
  }

  /** After the rewrite the card has a seed line, and every seed line carries the seed. */
  lemma DelphesSeeded(lines: seq<string>, seed: int)
    ensures var out := DelphesCard(lines, seed);
      && (exists i :: 0 <= i < |out| && out[i] == DelphesSeedLine(seed))
      && forall i :: 0 <= i < |out| && IsDelphesSeed(out[i]) ==> out[i] == DelphesSeedLine(seed)
  {
    var out := DelphesCard(lines, seed);
    if AnyLine(lines, IsDelphesSeed) {
      var i :| 0 <= i < |lines| && IsDelphesSeed(lines[i]);
      assert out[i] == DelphesSeedLine(seed);
    } else {
      assert out[0] == DelphesSeedLine(seed);
      assert forall i :: 1 <= i < |out| ==> out[i] == lines[i - 1];
    }
  }

  /** Rewriting a rewritten card with the same seed changes nothing. */
  lemma DelphesIdempotent(lines: seq<string>, seed: int)
    ensures DelphesCard(DelphesCard(lines, seed), seed) == DelphesCard(lines, seed)
  {
    var out := DelphesCard(lines, seed);
    DelphesSeeded(lines, seed);
    var l := DelphesSeedLine(seed);
    assert l == "set RandomSeed " + (IntToString(seed) + "\n");
    assert l[..14] == "set RandomSeed";
    var i :| 0 <= i < |out| && out[i] == l;
    assert IsDelphesSeed(out[i]);
    var again := DelphesCard(out, seed);
    assert forall j :: 0 <= j < |out| ==> again[j] == out[j];
  }

  /** One pass of the Delphes rewrite loop: line `i` is rewritten, and `found` notes a seed line. */
  method SeedDelphesLine(lines: seq<string>, seed: int, i: nat, out: seq<string>, found: bool)
    returns (out': seq<string>, found': bool)
    requires i < |lines| && |out| == |lines|
    requires forall j :: 0 <= j < |lines| ==> out[j] == if j < i then DelphesLine(lines[j], seed) else lines[j]
    requires found == AnyLine(lines[..i], IsDelphesSeed)
    ensures |out'| == |lines|
    ensures forall j :: 0 <= j < |lines| ==> out'[j] == if j <= i then DelphesLine(lines[j], seed) else lines[j]
    ensures found' == AnyLine(lines[..i + 1], IsDelphesSeed)
  {
    AnyLineStep(lines, i, IsDelphesSeed);
    out', found' := out, found;
    if IsDelphesSeed(lines[i]) {
      out' := out[i := DelphesSeedLine(seed)];
      found' := true;
    }
  }

  /** The rewrite loop of `launch` for a card whose name starts with `delphes`. */
  method SeedDelphesCard(lines: seq<string>, seed: int) returns (out: seq<string>)
    ensures out == DelphesCard(lines, seed)
  {
    out := lines;
    var found := false;
    var i := 0;
    while i < |lines|
      invariant 0 <= i <= |lines| && |out| == |lines|
      invariant forall j :: 0 <= j < |lines| ==> out[j] == if j < i then DelphesLine(lines[j], seed) else lines[j]
      invariant found == AnyLine(lines[..i], IsDelphesSeed)
    {
      out, found := SeedDelphesLine(lines, seed, i, out, found);
      i := i + 1;
    }
    assert lines[..i] == lines;
    if !found {
      out := [DelphesSeedLine(seed)] + out;
    }
  }

  // ---------------------------------------------------------------------------
  // The status of a run, read back from its log

  /** The status one log line reports, in the order the markers are tried; `""` for none. */
  function LineStatus(line: string, current: string): (s: string)
    ensures s == "Failed" ==> current != "Done"
  {
    if StartsWith(line, "Generating") then "Generating events..."
    else if Contains(line, "Running Pythia8") then "Running Pythia8..."
    else if Contains(line, "Running Delphes") then "Running Delphes..."
    else if Contains(line, "INFO: storing files") then "Storing files..."
    else if StartsWith(line, "INFO: Done") then "Done"
    else if StartsWith(line, "quit") && current != "Done" then "Failed"
    else ""
  }

  /** The last status `f` reports for a line of `lines`, or `""`. */
  function LastReported(lines: seq<string>, f: string -> string): string
    decreases |lines|
  {
    if |lines| == 0 then ""
    else if f(lines[|lines| - 1]) != "" then f(lines[|lines| - 1])
    else LastReported(lines[..|lines| - 1], f)
  }

  /** `""` when no line reports a status; otherwise the status of a line after which none does. */
  lemma LastReportedSpec(lines: seq<string>, f: string -> string)
    ensures var s := LastReported(lines, f);
      && (s == "" <==> forall k :: 0 <= k < |lines| ==> f(lines[k]) == "")
      && (s != "" ==>
            exists k :: 0 <= k < |lines| && f(lines[k]) == s && forall j :: k < j < |lines| ==> f(lines[j]) == "")
  {
    LastReportedNone(lines, f);
    if LastReported(lines, f) != "" {
      LastReportedLine(lines, f);
    }
  }

  /** `""` exactly when no line reports a status. */
  lemma {:induction false} LastReportedNone(lines: seq<string>, f: string -> string)
    ensures LastReported(lines, f) == "" <==> forall k :: 0 <= k < |lines| ==> f(lines[k]) == ""
    decreases |lines|
  {
    if |lines| > 0 {
      var n := |lines| - 1;
      var init := lines[..n];
      assert forall k :: 0 <= k < n ==> init[k] == lines[k];
      if f(lines[n]) == "" {
        LastReportedNone(init, f);
      }
    }
  }

  /** A reported status comes from a line after which no line reports one. */
  lemma {:induction false} LastReportedLine(lines: seq<string>, f: string -> string)
    requires LastReported(lines, f) != ""
    ensures exists k :: (0 <= k < |lines| && f(lines[k]) == LastReported(lines, f)
      && forall j :: k < j < |lines| ==> f(lines[j]) == "")
    decreases |lines|
  {
    var n := |lines| - 1;
    if f(lines[n]) == "" {
      var init := lines[..n];
      LastReportedLine(init, f);
      var k :| 0 <= k < n && f(init[k]) == LastReported(init, f) && forall j :: k < j < n ==> f(init[j]) == "";
      assert init[k] == lines[k];
      assert LastReported(lines, f) == LastReported(init, f);
      forall j | k < j < |lines|
        ensures f(lines[j]) == ""
      {
        if j < n {
          assert init[j] == lines[j];
        }
      }
    } else {
      assert f(lines[n]) == LastReported(lines, f);
    }
  }

  function StatusFn(current: string): (f: string -> string)
    ensures forall line :: f(line) == LineStatus(line, current)
  {
    line => LineStatus(line, current)
  }

  /** `_check_status`'s answer for a whole log: the status of its last line that reports one, or `""`. */
  function LastStatus(lines: seq<string>, current: string): string {
    LastReported(lines, StatusFn(current))
  }

  /** A run already known to be done is never reported as failed. */
  lemma DoneNeverFails(lines: seq<string>)
    ensures LastStatus(lines, "Done") != "Failed"
  {
    LastReportedSpec(lines, StatusFn("Done"));
  }

  // ---------------------------------------------------------------------------
  // The generator

  class Madgraph5 {
    const model: string
    const definitions: Dict<string, string>
    const processes: seq<string>
    var shower: string
    var detector: string
    var settings: Dict<string, Setting>
    var cards: seq<string>
    var nEvents: int
    var seed: int
    var tags: seq<string>
    var nEventsPerSubrun: int

    /** The fields fixed at creation; the others hold the values the setters then overwrite. */
    constructor(model: string, definitions: Dict<string, string>, processes: seq<string>,
                settings: Dict<string, Setting>)
      ensures this.model == model && this.definitions == definitions && this.processes == processes
      ensures this.settings == settings && cards == []
      ensures shower == "off" && detector == "off" && nEvents == 0 && seed == 0 && tags == [] && nEventsPerSubrun == 0
    {
      this.model := model;
      this.definitions := definitions;
      this.processes := processes;
      this.settings := settings;
      cards := [];
      shower := "off";
      detector := "off";
      nEvents := 0;
      seed := 0;
      tags := [];
      nEventsPerSubrun := 0;
    }

    /** The `shower` setter: off or pythia8 in any case, else ValueError and nothing changes. */
    method SetShower(value: string) returns (r: Outcome)
      modifies this`shower
      ensures ShowerSupported(value) ==> r == Pass && shower == value
      ensures !ShowerSupported(value) ==> r == Fail(ValueError) && shower == old(shower)
    {
      var lowered := Lower(value);
      if lowered != "off" && lowered != "pythia8" {
        return Fail(ValueError);
      }
      shower := value;
      return Pass;
    }

    /** The `detector` setter: off or delphes in any case, else ValueError and nothing changes. */
    method SetDetector(value: string) returns (r: Outcome)
      modifies this`detector
      ensures DetectorSupported(value) ==> r == Pass && detector == value
      ensures !DetectorSupported(value) ==> r == Fail(ValueError) && detector == old(detector)
    {
      var lowered := Lower(value);
      if lowered != "off" && lowered != "delphes" {
        return Fail(ValueError);
      }
      detector := value;
      return Pass;
    }

    /**
     * The `cards` setter: the stored cards are emptied first; a given card that is
     * not a file raises FileNotFoundError; then, for the shower `Pythia8` and the
     * detector `Delphes` spelt exactly so, the given cards named after the tool are
     * kept, or its default card when there is none.
     */
    method SetCards(given: seq<string>, isFile: string -> bool, mg5Dir: string) returns (r: Outcome)
      modifies this`cards
      ensures (forall k :: 0 <= k < |given| ==> isFile(given[k])) ==>
        r == Pass && cards == CardsFor(shower, detector, given, mg5Dir)
      ensures (exists k :: 0 <= k < |given| && !isFile(given[k])) ==> r == Fail(FileNotFoundError) && cards == []
    {
      cards := [];
      var allFiles := AllFiles(given, isFile);
      if !allFiles {
        return Fail(FileNotFoundError);
      }
      if shower == "Pythia8" {
        AddToolCards(given, "pythia8", mg5Dir + Pythia8DefaultCard);
      }
      if detector == "Delphes" {
        AddToolCards(given, "delphes", mg5Dir + DelphesDefaultCard);
      }
      return Pass;
    }

    /** Whether every card given to the `cards` setter is a file. */
    static method AllFiles(given: seq<string>, isFile: string -> bool) returns (ok: bool)
      ensures ok <==> forall k :: 0 <= k < |given| ==> isFile(given[k])
    {
      var i := 0;
      while i < |given|
        invariant 0 <= i <= |given|
        invariant forall k :: 0 <= k < i ==> isFile(given[k])
      {
        if !isFile(given[i]) {
          return false;
        }
        i := i + 1;
      }
      return true;
    }

    /** The cards of one tool appended: the given ones named after it, or its default card when there is none. */
    method AddToolCards(given: seq<string>, word: string, default: string)
      modifies this`cards
      ensures cards == old(cards) + ToolCards(given, word, default)
    {
      var found := AppendNamed(given, word);
      if !found {
        cards := cards + [default];
      }
    }

    /** One loop of the `cards` setter: every given card whose name contains `word` is appended, in order. */
    method AppendNamed(given: seq<string>, word: string) returns (found: bool)
      modifies this`cards
      ensures cards == old(cards) + CardsNamed(given, word)
      ensures found <==> CardsNamed(given, word) != []
    {
      ghost var start := cards;
      found := false;
      var i := 0;
      assert given[..0] == [];
      while i < |given|
        invariant 0 <= i <= |given|
        invariant cards == start + CardsNamed(given[..i], word)
        invariant found <==> |cards| > |start|
      {
        CardsNamedSnoc(given, i, word);
        var named := AppendIfNamed(given[i], word);
        found := found || named;
        i := i + 1;
      }
      assert given[..i] == given;
    }

    /** The body of that loop for one card. */
    method AppendIfNamed(card: string, word: string) returns (named: bool)
      modifies this`cards
      ensures named == NamedAfter(card, word)
      ensures cards == old(cards) + (if named then [card] else [])
    {
      named := NamedAfter(card, word);
      if named {
        cards := cards + [card];
      }
    }

    /** The `n_events` setter, which also writes `settings["nevents"]`. */
    method SetNEvents(value: int)
      modifies this`nEvents, this`settings
      ensures nEvents == value && settings == Set(old(settings), "nevents", Int(value))
    {
      nEvents := value;
      settings := Set(settings, "nevents", Int(value));
    }

    /** The `seed` setter, which also writes `settings["iseed"]`. */
    method SetSeed(value: int)
      modifies this`seed, this`settings
      ensures seed == value && settings == Set(old(settings), "iseed", Int(value))
    {
      seed := value;
      settings := Set(settings, "iseed", Int(value));
    }

    /** The `tags` setter: no tags become `["no_tags"]`, and `settings["run_tag"]` is the tags joined by commas. */
    method SetTags(value: seq<string>)
      modifies this`tags, this`settings
      ensures tags == TagsOf(value)
      ensures settings == Set(old(settings), "run_tag", Text(Join(tags, ",")))
    {
      var given := value;
      if |given| == 0 {
        given := ["no_tags"];
      }
      tags := given;
      settings := Set(settings, "run_tag", Text(Join(given, ",")));
    }

    /** The `n_events_per_subrun` setter: `settings["nevents"]` becomes the smaller of it and `n_events`. */
    method SetNEventsPerSubrun(value: int)
      modifies this`nEventsPerSubrun, this`settings
      ensures nEventsPerSubrun == value
      ensures settings == Set(old(settings), "nevents", Int(if value > nEvents then nEvents else value))
    {
      nEventsPerSubrun := value;
      if value > nEvents {
        settings := Set(settings, "nevents", Int(nEvents));
      } else {
        settings := Set(settings, "nevents", Int(value));
      }
    }

    /** The last four setters `__init__` runs: the events, the seed, the tags and the events per sub-run. */
    method SetCounts(nEvents: int, seed: int, tags: seq<string>, nEventsPerSubrun: int)
      modifies this`nEvents, this`seed, this`tags, this`nEventsPerSubrun, this`settings
      ensures this.nEvents == nEvents && this.seed == seed && this.tags == TagsOf(tags)
      ensures this.nEventsPerSubrun == nEventsPerSubrun
      ensures settings == InitSettings(old(settings), nEvents, seed, tags, nEventsPerSubrun)
    {
      SetNEvents(nEvents);
      SetSeed(seed);
      assert this.nEvents == nEvents && this.seed == seed;
      SetTags(tags);
      assert this.nEvents == nEvents && this.seed == seed;
      SetNEventsPerSubrun(nEventsPerSubrun);
    }

    /** The fields the command list is built from. */
    function Request(): MgRequest
      reads this
    {
      MgRequest(model, definitions, processes, shower, detector, settings, cards, nEvents, nEventsPerSubrun)
    }

    /** `commands` of the current fields. */
    function Commands(): Result<seq<string>>
      reads this
    {
      CommandList(Request())
    }

    /** `_check_status`: the log scanned from its last line, stopping at the first line that reports a status. */
    method CheckStatus(contents: seq<string>, current: string) returns (status: string)
      ensures status == LastStatus(contents, current)
    {
      var f := StatusFn(current);
      status := "";
      var i := |contents|;
      assert contents[..i] == contents;
      while i > 0
        invariant 0 <= i <= |contents|
        invariant LastReported(contents, f) == LastReported(contents[..i], f)
      {
        assert contents[..i][..i - 1] == contents[..i - 1];
        var s := LineStatus(contents[i - 1], current);
        if s != "" {
          status := s;
          break;
        }
        i := i - 1;
      }
    }
  }

  /** The lines before the launch: the model, the definitions and the processes. */
  function PreLines(model: string, definitions: Dict<string, string>, processes: seq<string>): (ls: seq<string>)
    requires |processes| > 0
    ensures |ls| == 1 + |definitions| + |processes|
    ensures ls[0] == "import model " + model
    ensures forall k :: 0 <= k < |definitions| ==> ls[1 + k] == "define " + definitions[k].0 + " = " + definitions[k].1
    ensures ls[1 + |definitions|] == "generate " + processes[0]
    ensures forall k :: 1 <= k < |processes| ==> ls[1 + |definitions| + k] == "add process " + processes[k]
  {
    seq(1 + |definitions| + |processes|, k requires 0 <= k < 1 + |definitions| + |processes| =>
      if k == 0 then "import model " + model
      else if k <= |definitions| then "define " + definitions[k - 1].0 + " = " + definitions[k - 1].1
      else if k == 1 + |definitions| then "generate " + processes[0]
      else "add process " + processes[k - 1 - |definitions|])
  }

  /** The launch lines: output directory, launch, sub-run count, shower and detector. */
  function LaunchLines(n: int, shower: string, detector: string): (ls: seq<string>)
    ensures ls == ["output mg5_output", "launch -i", "multi_run " + IntToString(n), "shower=" + shower, "detector=" + detector]
  {
    ["output mg5_output", "launch -i", "multi_run " + IntToString(n), "shower=" + shower, "detector=" + detector]
  }

  /** The last command: write the short results summary under `results`. */
  const ResultsRequest := "print_results --path=results --format=short"

  /** The lines after the launch: the settings, the cards and the results request. */
  function PostLines(settings: Dict<string, Setting>, cards: seq<string>): (ls: seq<string>)
    ensures |ls| == |settings| + |cards| + 1
    ensures forall k :: 0 <= k < |settings| ==> ls[k] == "set " + settings[k].0 + " " + Show(settings[k].1)
    ensures forall k :: 0 <= k < |cards| ==> ls[|settings| + k] == cards[k]
    ensures ls[|ls| - 1] == ResultsRequest
  {
    var sets := SetLines(settings);
    var ls := sets + cards + [ResultsRequest];
    assert forall k :: 0 <= k < |sets| ==> ls[k] == sets[k];
    assert forall k :: 0 <= k < |cards| ==> ls[|sets| + k] == cards[k];
    assert ls[|ls| - 1] == ResultsRequest;
    ls
  }

  /** Where each part of the command list sits once the three parts are put together. */
  lemma CommandLayout(pre: seq<string>, launch: seq<string>, post: seq<string>)
    ensures var c := pre + launch + post;
      && |c| == |pre| + |launch| + |post|
      && (forall k :: 0 <= k < |pre| ==> c[k] == pre[k])
      && (forall k :: 0 <= k < |launch| ==> c[|pre| + k] == launch[k])
      && (forall k :: 0 <= k < |post| ==> c[|pre| + |launch| + k] == post[k])
  {
  }

  /** The fields of a generator that the command list is built from. */
  datatype MgRequest = MgRequest(
    model: string, definitions: Dict<string, string>, processes: seq<string>,
    shower: string, detector: string, settings: Dict<string, Setting>, cards: seq<string>,
    nEvents: int, perSubrun: int)

  /** The settings used by the command list: a copy with `nevents` set to the events per sub-run. */
  function RunSettings(q: MgRequest): Dict<string, Setting> {
    Set(q.settings, "nevents", Int(q.perSubrun))
  }

  /** The copy differs from the settings only in `nevents`, which holds the events per sub-run. */
  lemma RunSettingsSpec(q: MgRequest)
    ensures Get(RunSettings(q), "nevents") == Some(Int(q.perSubrun))
    ensures forall k :: k != "nevents" ==> Get(RunSettings(q), k) == Get(q.settings, k)
  {
    GetSet(q.settings, "nevents", Int(q.perSubrun), "nevents");
    forall k | k != "nevents" ensures Get(RunSettings(q), k) == Get(q.settings, k) {
      GetSet(q.settings, "nevents", Int(q.perSubrun), k);
    }
  }

  /** The command list for `n` sub-runs. */
  function CommandsFor(q: MgRequest, n: int): seq<string>
    requires |q.processes| > 0
  {
    CommandsWith(q, n, RunSettings(q))
  }

  /** The command list for `n` sub-runs with the given settings. */
  function CommandsWith(q: MgRequest, n: int, settings: Dict<string, Setting>): seq<string>
    requires |q.processes| > 0
  {
    PreLines(q.model, q.definitions, q.processes)
    + LaunchLines(n, q.shower, q.detector)
    + PostLines(settings, q.cards)
  }

  /**
   * `commands`: IndexError without a process, then whatever `n_subruns` raises;
   * otherwise the list for that many sub-runs.
   */
  function CommandList(q: MgRequest): (r: Result<seq<string>>)
    ensures |q.processes| == 0 ==> r == Err(IndexError)
    ensures |q.processes| > 0 ==> (r.Ok? <==> NSubruns(q.nEvents, q.perSubrun).Ok?)
    ensures r.Err? ==> r.error == IndexError || r.error == ZeroDivisionError
    ensures r.Ok? ==> |q.processes| > 0 && r.value == CommandsFor(q, NSubruns(q.nEvents, q.perSubrun).value)
  {
    if |q.processes| == 0 then Err(IndexError)
    else
      var n :- NSubruns(q.nEvents, q.perSubrun);
      Ok(CommandsFor(q, n))
  }

  /** The opening lines of any list `c` that starts with `PreLines`. */
  lemma HeadAt(c: seq<string>, model: string, definitions: Dict<string, string>, processes: seq<string>,
               mid: seq<string>, rest: seq<string>)
    requires |processes| > 0 && c == PreLines(model, definitions, processes) + mid + rest
    ensures |c| == |definitions| + |processes| + 1 + |mid| + |rest|
    ensures c[0] == "import model " + model
    ensures forall k :: 0 <= k < |definitions| ==> c[1 + k] == "define " + definitions[k].0 + " = " + definitions[k].1
    ensures c[1 + |definitions|] == "generate " + processes[0]
    ensures forall k :: 1 <= k < |processes| ==> c[1 + |definitions| + k] == "add process " + processes[k]
  {
    var pre := PreLines(model, definitions, processes);
    assert forall k :: 0 <= k < |pre| ==> c[k] == pre[k];
  }

  /** The launch lines of any list `c` that has them after `i` lines. */
  lemma LaunchAt(c: seq<string>, pre: seq<string>, i: int, n: int, shower: string, detector: string, post: seq<string>)
    requires c == pre + LaunchLines(n, shower, detector) + post && i == |pre|
    ensures |c| > i + 4
    ensures c[i] == "output mg5_output" && c[i + 1] == "launch -i"
    ensures c[i + 2] == "multi_run " + IntToString(n)
    ensures c[i + 3] == "shower=" + shower && c[i + 4] == "detector=" + detector
  {
    CommandLayout(pre, LaunchLines(n, shower, detector), post);
  }

  /** The closing lines of any list `c` that ends with `PostLines` after `i` lines. */
  lemma TailAt(c: seq<string>, front: seq<string>, i: int, settings: Dict<string, Setting>, cards: seq<string>)
    requires c == front + PostLines(settings, cards) && i == |front|
    ensures |c| == i + |settings| + |cards| + 1
    ensures forall k :: 0 <= k < |settings| ==> c[i + k] == "set " + settings[k].0 + " " + Show(settings[k].1)
    ensures forall k :: 0 <= k < |cards| ==> c[i + |settings| + k] == cards[k]
    ensures c[|c| - 1] == ResultsRequest
  {
    var post := PostLines(settings, cards);
    assert forall k :: 0 <= k < |post| ==> c[i + k] == post[k];
    assert c[|c| - 1] == post[|post| - 1];
  }

  /** The command list `c` built with any settings opens with the model, the definitions in order and the processes in order. */
  lemma CommandsHead(q: MgRequest, n: int, s: Dict<string, Setting>, c: seq<string>)
    requires |q.processes| > 0 && c == CommandsWith(q, n, s)
    ensures |c| > |q.definitions| + |q.processes|
    ensures c[0] == "import model " + q.model
    ensures forall k :: 0 <= k < |q.definitions| ==> c[1 + k] == "define " + q.definitions[k].0 + " = " + q.definitions[k].1
    ensures c[1 + |q.definitions|] == "generate " + q.processes[0]
    ensures forall k :: 1 <= k < |q.processes| ==> c[1 + |q.definitions| + k] == "add process " + q.processes[k]
  {
    HeadAt(c, q.model, q.definitions, q.processes, LaunchLines(n, q.shower, q.detector), PostLines(s, q.cards));
  }

  /** After the processes: the output, the launch with its sub-run count, the shower and the detector. */
  lemma CommandsLaunch(q: MgRequest, n: int, s: Dict<string, Setting>, c: seq<string>)
    requires |q.processes| > 0 && c == CommandsWith(q, n, s)
    ensures |c| > 5 + |q.definitions| + |q.processes|
    ensures c[1 + |q.definitions| + |q.processes|] == "output mg5_output"
    ensures c[2 + |q.definitions| + |q.processes|] == "launch -i"
    ensures c[3 + |q.definitions| + |q.processes|] == "multi_run " + IntToString(n)
    ensures c[4 + |q.definitions| + |q.processes|] == "shower=" + q.shower
    ensures c[5 + |q.definitions| + |q.processes|] == "detector=" + q.detector
  {
    var pre := PreLines(q.model, q.definitions, q.processes);
    LaunchAt(c, pre, 1 + |q.definitions| + |q.processes|, n, q.shower, q.detector, PostLines(s, q.cards));
  }

  /**
   * The command list `c` built with the settings `s` closes, after its first `i`
   * lines, with one `set` line per setting, the cards in order and the results
   * request; `CommandsFor` uses `RunSettings`, whose `nevents` is the events per sub-run.
   */
  lemma CommandsTail(q: MgRequest, n: int, s: Dict<string, Setting>, c: seq<string>, i: int)
    requires |q.processes| > 0 && c == CommandsWith(q, n, s) && i == 6 + |q.definitions| + |q.processes|
    ensures |c| == i + |s| + |q.cards| + 1
    ensures forall k :: 0 <= k < |s| ==> c[i + k] == "set " + s[k].0 + " " + Show(s[k].1)
    ensures forall k :: 0 <= k < |q.cards| ==> c[i + |s| + k] == q.cards[k]
    ensures c[|c| - 1] == ResultsRequest
  {
    var front := PreLines(q.model, q.definitions, q.processes) + LaunchLines(n, q.shower, q.detector);
    TailAt(c, front, i, s, q.cards);
  }

  // ---------------------------------------------------------------------------
  // The cards the `cards` setter keeps

  /** `Path(p).name` of a resolved path: what follows its last `/`. */
  function BaseName(p: string): string {
    if |p| == 0 || p[|p| - 1] == '/' then "" else BaseName(p[..|p| - 1]) + [p[|p| - 1]]
  }

  /** The name is the longest end of the path without a `/`: the path is `/` or nothing just before it. */
  lemma {:induction false} BaseNameSpec(p: string)
    ensures var r := BaseName(p);
      && '/' !in r && |r| <= |p| && p[|p| - |r|..] == r
      && (|r| < |p| ==> p[|p| - |r| - 1] == '/')
    decreases |p|
  {
    if |p| > 0 && p[|p| - 1] != '/' {
      var init := p[..|p| - 1];
      BaseNameSpec(init);
      var q := BaseName(init);
      assert BaseName(p) == q + [p[|p| - 1]];
      assert p[|p| - |q| - 1..] == init[|init| - |q|..] + [p[|p| - 1]];
    }
  }

  /** `word in Path(card).name` */
  predicate NamedAfter(card: string, word: string) {
    Contains(BaseName(card), word)
  }

  /** The given cards whose name contains `word`, in their order. */
  function CardsNamed(cards: seq<string>, word: string): (r: seq<string>)
    ensures |r| <= |cards|
  {
    if |cards| == 0 then []
    else
      var last := cards[|cards| - 1];
      CardsNamed(cards[..|cards| - 1], word) + (if NamedAfter(last, word) then [last] else [])
  }

  /** One more given card is kept after the others when its name contains `word`. */
  lemma CardsNamedSnoc(cards: seq<string>, i: nat, word: string)
    requires i < |cards|
    ensures CardsNamed(cards[..i + 1], word)
      == CardsNamed(cards[..i], word) + (if NamedAfter(cards[i], word) then [cards[i]] else [])
  {
    assert cards[..i + 1][..i] == cards[..i];
  }

  /** A card is kept exactly when it is given and its name contains `word`. */
  lemma {:induction false} CardsNamedMembers(cards: seq<string>, word: string, c: string)
    ensures c in CardsNamed(cards, word) <==> c in cards && NamedAfter(c, word)
    decreases |cards|
  {
    if |cards| > 0 {
      var init := cards[..|cards| - 1];
      var last := cards[|cards| - 1];
      CardsNamedMembers(init, word, c);
      assert cards == init + [last];
      assert c in cards <==> c in init || c == last;
    }
  }

  /** The default cards under the Madgraph5 directory. */
  const Pythia8DefaultCard := "/Template/LO/Cards/pythia8_card_default.dat"
  const DelphesDefaultCard := "/Template/Common/Cards/delphes_card_default.dat"

  /** The cards kept for one tool: the given ones named after it, or else its default card. */
  function ToolCards(cards: seq<string>, word: string, default: string): seq<string> {
    var named := CardsNamed(cards, word);
    if named == [] then [default] else named
  }

  /** What the `cards` setter keeps for a shower and a detector, spelt as they were stored. */
  function CardsFor(shower: string, detector: string, cards: seq<string>, mg5Dir: string): seq<string> {
    (if shower == "Pythia8" then ToolCards(cards, "pythia8", mg5Dir + Pythia8DefaultCard) else [])
    + (if detector == "Delphes" then ToolCards(cards, "delphes", mg5Dir + DelphesDefaultCard) else [])
  }

  /** Keeping the cards named after a tool distributes over the list of given cards, so their order is kept. */
  lemma {:induction false} CardsNamedAppend(a: seq<string>, b: seq<string>, word: string)
    ensures CardsNamed(a + b, word) == CardsNamed(a, word) + CardsNamed(b, word)
    decreases |b|
  {
    if |b| == 0 {
      assert a + b == a;
    } else {
      var init := b[..|b| - 1];
      assert (a + b)[..|a + b| - 1] == a + init;
      assert (a + b)[|a + b| - 1] == b[|b| - 1];
      CardsNamedAppend(a, init, word);
    }
  }

  /**
   * A card is kept exactly when it is a given card named after an enabled tool, or
   * the default card of an enabled tool none of whose cards was given.
   */
  lemma CardsForMembers(shower: string, detector: string, cards: seq<string>, mg5Dir: string, c: string)
    ensures c in CardsFor(shower, detector, cards, mg5Dir) <==>
      || (shower == "Pythia8" && c in cards && NamedAfter(c, "pythia8"))
      || (shower == "Pythia8" && CardsNamed(cards, "pythia8") == [] && c == mg5Dir + Pythia8DefaultCard)
      || (detector == "Delphes" && c in cards && NamedAfter(c, "delphes"))
      || (detector == "Delphes" && CardsNamed(cards, "delphes") == [] && c == mg5Dir + DelphesDefaultCard)
  {
    CardsNamedMembers(cards, "pythia8", c);
    CardsNamedMembers(cards, "delphes", c);
  }

  /**
   * The setters accept `pythia8`, `delphes` and `off` in any case, but the `cards`
   * setter compares with `Pythia8` and `Delphes`: for any other spelling no card is
   * kept, given or default.
   */
  lemma NoCardsUnlessCapitalised(shower: string, detector: string, cards: seq<string>, mg5Dir: string)
    requires shower != "Pythia8" && detector != "Delphes"
    ensures CardsFor(shower, detector, cards, mg5Dir) == []
  {
  }

  /** With both tools enabled, the Pythia8 cards come first, then the Delphes cards, and each tool has at least one. */
  lemma BothToolsCards(cards: seq<string>, mg5Dir: string)
    ensures var c := CardsFor("Pythia8", "Delphes", cards, mg5Dir);
      var p := ToolCards(cards, "pythia8", mg5Dir + Pythia8DefaultCard);
      && |p| > 0 && |c| > |p| && c[..|p|] == p && c[|p|..] == ToolCards(cards, "delphes", mg5Dir + DelphesDefaultCard)
  {
    var p := ToolCards(cards, "pythia8", mg5Dir + Pythia8DefaultCard);
    var d := ToolCards(cards, "delphes", mg5Dir + DelphesDefaultCard);
    assert CardsFor("Pythia8", "Delphes", cards, mg5Dir) == p + d;
  }

  /** The tags the `tags` setter keeps. */
  function TagsOf(tags: seq<string>): seq<string> {
    if |tags| == 0 then ["no_tags"] else tags
  }

  /** The settings after the setters of `__init__` wrote events, seed, tags and events per sub-run. */
  function InitSettings(settings: Dict<string, Setting>, nEvents: int, seed: int, tags: seq<string>, perSubrun: int)
    : Dict<string, Setting>
  {
    var s := Set(Set(Set(settings, "nevents", Int(nEvents)), "iseed", Int(seed)), "run_tag", Text(Join(TagsOf(tags), ",")));
    Set(s, "nevents", Int(if perSubrun > nEvents then nEvents else perSubrun))
  }

  /**
   * After `__init__`, `nevents` holds the smaller of the events per sub-run and the
   * events, `iseed` the seed and `run_tag` the kept tags joined by commas; every
   * other key keeps the value it was given.
   */
  lemma InitSettingsSpec(settings: Dict<string, Setting>, nEvents: int, seed: int, tags: seq<string>, perSubrun: int)
    ensures var s := InitSettings(settings, nEvents, seed, tags, perSubrun);
      && Get(s, "nevents") == Some(Int(if perSubrun > nEvents then nEvents else perSubrun))
      && Get(s, "iseed") == Some(Int(seed))
      && Get(s, "run_tag") == Some(Text(Join(TagsOf(tags), ",")))
      && forall k :: k != "nevents" && k != "iseed" && k != "run_tag" ==> Get(s, k) == Get(settings, k)
  {
    var s0 := Set(settings, "nevents", Int(nEvents));
    var s1 := Set(s0, "iseed", Int(seed));
    var s2 := Set(s1, "run_tag", Text(Join(TagsOf(tags), ",")));
    var per := Int(if perSubrun > nEvents then nEvents else perSubrun);
    GetSet(s2, "nevents", per, "nevents");
    GetSet(s2, "nevents", per, "iseed");
    GetSet(s1, "run_tag", Text(Join(TagsOf(tags), ",")), "iseed");
    GetSet(s0, "iseed", Int(seed), "iseed");
    GetSet(s2, "nevents", per, "run_tag");
    GetSet(s1, "run_tag", Text(Join(TagsOf(tags), ",")), "run_tag");
    forall k | k != "nevents" && k != "iseed" && k != "run_tag"
      ensures Get(InitSettings(settings, nEvents, seed, tags, perSubrun), k) == Get(settings, k)
    {
      GetSet(s2, "nevents", per, k);
      GetSet(s1, "run_tag", Text(Join(TagsOf(tags), ",")), k);
      GetSet(s0, "iseed", Int(seed), k);
      GetSet(settings, "nevents", Int(nEvents), k);
    }
  }

  /**
   * `Madgraph5(...)` after its paths are resolved: the setters run in the order of
   * `__init__`, so an unsupported shower or detector raises ValueError.
   */
  method NewMadgraph5(model: string, definitions: Dict<string, string>, processes: seq<string>,
                      shower: string, detector: string, settings: Dict<string, Setting>, cards: seq<string>,
                      nEvents: int, seed: int, tags: seq<string>, nEventsPerSubrun: int,
                      isFile: string -> bool, mg5Dir: string)
    returns (r: Result<Madgraph5>)
    ensures !ShowerSupported(shower) || !DetectorSupported(detector) ==> r == Err(ValueError)
    ensures (ShowerSupported(shower) && DetectorSupported(detector)
             && exists k :: 0 <= k < |cards| && !isFile(cards[k])) ==> r == Err(FileNotFoundError)
    ensures (ShowerSupported(shower) && DetectorSupported(detector)
             && forall k :: 0 <= k < |cards| ==> isFile(cards[k])) ==>
      (r.Ok? && fresh(r.value)
       && r.value.shower == shower && r.value.detector == detector
       && r.value.cards == CardsFor(shower, detector, cards, mg5Dir)
       && r.value.nEvents == nEvents && r.value.seed == seed && r.value.nEventsPerSubrun == nEventsPerSubrun
       && r.value.tags == TagsOf(tags)
       && r.value.settings == InitSettings(settings, nEvents, seed, tags, nEventsPerSubrun))
  {
    var g := new Madgraph5(model, definitions, processes, settings);
    var o := g.SetShower(shower);
    if o.Fail? {
      return Err(ValueError);
    }
    o := g.SetDetector(detector);
    if o.Fail? {
      return Err(ValueError);
    }
    assert g.shower == shower && g.detector == detector;
    o := g.SetCards(cards, isFile, mg5Dir);
    if o.Fail? {
      return Err(FileNotFoundError);
    }
    g.SetCounts(nEvents, seed, tags, nEventsPerSubrun);
    return Ok(g);
  }
}
