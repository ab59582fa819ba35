/**
 * The base observable of hml/types.py: it parses a physics-object identifier such as
 * `Jet:2.Constituents:10` into (field, start, stop) selections, reads one event into
 * None-padded lists of main and sub objects, and keeps a registry of the observable
 * classes by name.
 */
module Types {
  import opened Wrappers
  import opened Strings
  import opened Events
  import Single
  import Nested

  /** A parsed branch: field name, start and an optional (exclusive) stop. */
  datatype Branch = Branch(obj: string, start: nat, stop: Option<nat>)

  /**
   * One comma-separated component: its main branch and, when the component holds a
   * period, its sub branch. Either parse may have failed, giving None.
   */
  datatype Item = Item(main: Option<Branch>, sub: Option<Option<Branch>>)

  // ---------------------------------------------------------------------------
  // parse_branch

  /** `re.match(r"^([A-Za-z]+)$", s)`. */
  predicate LettersOnly(s: string) {
    |DollarBody(s)| > 0 && AllLetters(DollarBody(s))
  }

  /** The first step of `parse_branch`: a letters-only branch gets a colon appended. */
  function AppendColon(branch: string): (b: string)
    ensures LettersOnly(branch) ==> b == branch + ":"
    ensures !LettersOnly(branch) ==> b == branch
  {
    if LettersOnly(branch) then branch + ":" else branch
  }

  /** The groups of `^([A-Za-z]+)(\d*:?\d*)$`: the letters and what follows them. */
  function SliceMatch(s: string): (r: Option<(string, string)>)
    ensures r.Some? ==> DollarBody(s) == r.value.0 + r.value.1
    ensures r.Some? ==> |r.value.0| > 0 && AllLetters(r.value.0) && DigitsColonDigits(r.value.1)
  {
    var b := DollarBody(s);
    var n := LetterRun(b);
    if n > 0 && DigitsColonDigits(b[n..]) then
      assert b == b[..n] + b[n..];
      Some((b[..n], b[n..]))
    else None
  }

  /**
   * `parse_branch`: a letters-only branch gets a colon appended; letters then digits
   * select that one index; letters, digits, a colon and digits select a slice; any
   * other branch gives None.
   */
  function ParseBranch(branch: string): (r: Result<Option<Branch>>)
    ensures r.Ok?
  {
    AppendedNeverRaises(branch);
    ParseAppended(AppendColon(branch))
  }

  /** The two patterns of `parse_branch`, tried in order on the branch with its colon appended. */
  function ParseAppended(b: string): Result<Option<Branch>> {
    match Single.Match(b)
    case Some((obj, index)) =>
      var start := DigitsValue(index);
      Ok(Some(Branch(obj, start, Some(start + 1))))
    case None =>
      match SliceMatch(b)
      case None => Ok(None)
      case Some((obj, agnosticIndex)) => SliceIndices(obj, agnosticIndex)
  }

  /**
   * The slice text split at its colon: an omitted start is 0 and an omitted stop is
   * None. `indices[1]` raises IndexError when there is no colon.
   */
  function SliceIndices(obj: string, agnosticIndex: string): Result<Option<Branch>>
    requires DigitsColonDigits(agnosticIndex)
  {
    var indices := SplitOn(agnosticIndex, ":");
    if |indices| < 2 then Err(IndexError)
    else
      DigitsColonDigitsPieces(agnosticIndex);
      if indices[0] == "" && indices[1] == "" then Ok(Some(Branch(obj, 0, None)))
      else if indices[0] == "" then Ok(Some(Branch(obj, 0, Some(DigitsValue(indices[1])))))
      else if indices[1] == "" then Ok(Some(Branch(obj, DigitsValue(indices[0]), None)))
      else Ok(Some(Branch(obj, DigitsValue(indices[0]), Some(DigitsValue(indices[1])))))
  }

  // ---------------------------------------------------------------------------
  // parse_physics_object

  /** One component: split at the period into exactly two branches, else ValueError. */
  function ParseItem(name: string): (r: Result<Item>)
    ensures r.Ok? ==> (r.value.sub.Some? <==> '.' in name)
    ensures '.' !in name ==> r == Ok(Item(ParseBranch(name).value, None))
    ensures '.' in name ==> (r.Err? <==> |SplitOn(name, ".")| != 2)
    ensures r.Err? ==> r.error == ValueError
  {
    if '.' !in name then
      Ok(Item(ParseBranch(name).value, None))
    else
      ContainsCharIn(name, '.');
      var parts := SplitOn(name, ".");
      if |parts| != 2 then Err(ValueError)
      else
        Ok(Item(ParseBranch(parts[0]).value, Some(ParseBranch(parts[1]).value)))
  }

  /** `parse_physics_object`: one item per comma-separated component, in order. */
  function ParsePhysicsObject(physicsObject: string): (r: Result<seq<Item>>)
    ensures r.Ok? <==> AllParse(SplitOn(physicsObject, ","))
    ensures r.Ok? ==> |r.value| == |SplitOn(physicsObject, ",")|
    ensures r.Ok? ==> forall i :: 0 <= i < |r.value| ==> ParseItem(SplitOn(physicsObject, ",")[i]) == Ok(r.value[i])
    ensures r.Err? ==> r.error == ValueError
  {
    var parts := SplitOn(physicsObject, ",");
    var f := ParseItemFn();
    ParseItemsFacts(f, parts);
    MapResult(f, parts)
  }

  /** Every component parses. */
  predicate AllParse(parts: seq<string>) {
    forall i :: 0 <= i < |parts| ==> ParseItem(parts[i]).Ok?
  }

  /** What `MapResult` of `ParseItem` gives, in terms of `ParseItem` itself. */
  lemma ParseItemsFacts(f: string -> Result<Item>, parts: seq<string>)
    requires forall s :: f(s) == ParseItem(s)
    ensures MapResult(f, parts).Ok? <==> AllParse(parts)
    ensures MapResult(f, parts).Ok? ==> forall i :: 0 <= i < |parts| ==> ParseItem(parts[i]) == Ok(MapResult(f, parts).value[i])
    ensures MapResult(f, parts).Err? ==> MapResult(f, parts).error == ValueError
  {
    var r := MapResult(f, parts);
    if r.Err? {
      var i :| 0 <= i < |parts| && f(parts[i]) == Err(r.error);
      assert ParseItem(parts[i]) == Err(r.error);
    }
  }

  function ParseItemFn(): (f: string -> Result<Item>)
    ensures forall s :: f(s) == ParseItem(s)
  {
    s => ParseItem(s)
  }

  // ---------------------------------------------------------------------------
  // read

  type Selection = seq<Option<Obj>>

  /** What `read` has built so far, and the error that stopped it, if any. */
  datatype ReadState = ReadState(mains: seq<Selection>, subs: seq<seq<Selection>>, failure: Option<Error>)

  /** The main selection of a component: the event's field, clipped to the slice and None-padded to `stop - start`. */
  function MainSelection(event: Event, b: Branch): (r: Result<Selection>)
    ensures r.Err? <==> b.obj !in event.branches
    ensures r.Ok? ==> r.value == Select(event.branches[b.obj], b.start, b.stop)
  {
    if b.obj !in event.branches then Err(AttributeError)
    else Ok(Select(event.branches[b.obj], b.start, b.stop))
  }

  /**
   * The sub selection for one main object: a real one's sub-collection clipped and
   * padded like the main; a None one with `[None]` for an unbounded sub and with
   * `stop - start` Nones for a bounded one.
   */
  function SubEntry(mainObject: Option<Obj>, sb: Branch): (r: Result<Selection>)
    ensures mainObject.None? && sb.stop.None? ==> r == Ok([None])
    ensures mainObject.Some? ==> (r.Err? <==> sb.obj !in mainObject.value.attrs)
  {
    match mainObject
    case None => Ok(if sb.stop.None? then [None] else Nones(sb.stop.value - sb.start))
    case Some(o) =>
      if sb.obj !in o.attrs then Err(AttributeError)
      else Ok(Select(o.attrs[sb.obj], sb.start, sb.stop))
  }

  function SubEntryFn(sb: Branch): (f: Option<Obj> -> Result<Selection>)
    ensures forall m :: f(m) == SubEntry(m, sb)
  {
    m => SubEntry(m, sb)
  }

  /** One component read into the state; the main list grows before the sub list. */
  function Step(event: Event, st: ReadState, item: Item): (r: ReadState)
    requires st.failure.None?
  {
    match item.main
    case None => st.(failure := Some(TypeError))
    case Some(mb) =>
      match MainSelection(event, mb)
      case Err(e) => st.(failure := Some(e))
      case Ok(sel) =>
        var mains := st.mains + [sel];
        if item.sub.None? || item.sub.value.None? then ReadState(mains, st.subs + [[]], None)
        else
          match MapResult(SubEntryFn(item.sub.value.value), sel)
          case Ok(perMain) => ReadState(mains, st.subs + [perMain], None)
          case Err(e) => ReadState(mains, st.subs, Some(e))
  }

  /** The components read in order, stopping at the first error. */
  function ReadItems(event: Event, items: seq<Item>): (st: ReadState)
    ensures st.failure.None? ==> |st.mains| == |st.subs| == |items|
  {
    if |items| == 0 then ReadState([], [], None)
    else
      var st := ReadItems(event, items[..|items| - 1]);
      if st.failure.Some? then st else Step(event, st, items[|items| - 1])
  }

  /** Once a prefix of the components has failed, the later components change nothing. */
  lemma {:induction false} ReadItemsStops(event: Event, items: seq<Item>, k: nat)
    requires k <= |items| && ReadItems(event, items[..k]).failure.Some?
    ensures ReadItems(event, items) == ReadItems(event, items[..k])
    decreases |items|
  {
    if k < |items| {
      var init := items[..|items| - 1];
      assert init[..k] == items[..k];
      ReadItemsStops(event, init, k);
    } else {
      assert items[..k] == items;
    }
  }

  /** Python truthiness of `physics_object`. */
  predicate Truthy(physicsObject: Option<string>) {
    physicsObject.Some? && physicsObject.value != ""
  }

  /** An observable: the parsed identifier, its name, and the lists its last read built. */
  class Observable<V> {
    const physicsObject: Option<string>
    const objs: seq<Item>
    const className: string
    const givenName: Option<string>
    var mainObjs: seq<Selection>
    var subObjs: seq<seq<Selection>>
    var event: Option<Event>
    var value: Option<V>

    constructor(physicsObject: Option<string>, objs: seq<Item>, className: string, givenName: Option<string>)
      ensures this.physicsObject == physicsObject && this.objs == objs
      ensures this.className == className && this.givenName == givenName
      ensures mainObjs == [] && subObjs == [] && event == None && value == None
    {
      this.physicsObject := physicsObject;
      this.objs := objs;
      this.className := className;
      this.givenName := givenName;
      mainObjs := [];
      subObjs := [];
      event := None;
      value := None;
    }

    /** `name`: the identifier and the observable's name joined by a period, or the name alone. */
    function Name(): (s: string)
      ensures !Truthy(physicsObject) ==> s == givenName.GetOr(className)
    {
      var own := givenName.GetOr(className);
      if Truthy(physicsObject) then physicsObject.value + "." + own else own
    }

    /** What `read` leaves in `main_objs` and `sub_objs`. */
    function Resolved(event: Event): ReadState {
      if Truthy(physicsObject) then ReadItems(event, objs) else ReadState([], [], None)
    }

    /**
     * `read`: resolves every component against the event, then stores what
     * `getValue` (the subclass's `get_value`) makes of the lists. On an error the
     * lists keep what was built before it and the value is not set.
     */
    method Read(event: Event, getValue: (seq<Selection>, seq<seq<Selection>>) -> V) returns (r: Outcome)
      modifies this
      ensures var st := Resolved(event);
        && this.event == Some(event) && mainObjs == st.mains && subObjs == st.subs
        && (st.failure.None? ==> r == Pass && value == Some(getValue(st.mains, st.subs)))
        && (st.failure.Some? ==> r == Fail(st.failure.value) && value == old(value))
    {
      mainObjs := [];
      subObjs := [];
      this.event := Some(event);
      if Truthy(physicsObject) {
        var i := 0;
        while i < |objs|
          invariant 0 <= i <= |objs|
          invariant ReadItems(event, objs[..i]) == ReadState(mainObjs, subObjs, None)
          invariant this.event == Some(event) && value == old(value)
        {
          assert objs[..i + 1][..i] == objs[..i];
          var st := ReadComponent(event, ReadState(mainObjs, subObjs, None), objs[i]);
          mainObjs := st.mains;
          subObjs := st.subs;
          if st.failure.Some? {
            ReadItemsStops(event, objs, i + 1);
            return Fail(st.failure.value);
          }
          i := i + 1;
        }
        assert objs[..i] == objs;
      }
      value := Some(getValue(mainObjs, subObjs));
      return Pass;
    }
  }

  /** The body of `read`'s loop: one component read into the lists built so far. */
  method ReadComponent(event: Event, st: ReadState, item: Item) returns (r: ReadState)
    requires st.failure.None?
    ensures r == Step(event, st, item)
  {
    if item.main.None? {
      return st.(failure := Some(TypeError));
    }
    var mb := item.main.value;
    if mb.obj !in event.branches {
      return st.(failure := Some(AttributeError));
    }
    var prepared := Prepare(event.branches[mb.obj], mb.start, mb.stop);
    var mains := st.mains + [prepared];
    if item.sub.None? || item.sub.value.None? {
      return ReadState(mains, st.subs + [[]], None);
    }
    var perMain := SubsPerMain(prepared, item.sub.value.value);
    if perMain.Err? {
      return ReadState(mains, st.subs, Some(perMain.error));
    }
    return ReadState(mains, st.subs + [perMain.value], None);
  }

  /**
   * The clipping and padding `read` applies to a main and to a sub collection: the
   * slice, then Nones up to `stop - start` entries when the stop is given.
   */
  method Prepare(xs: seq<Obj>, start: nat, stop: Option<nat>) returns (prepared: Selection)
    ensures prepared == Select(xs, start, stop)
    ensures stop.Some? ==> |prepared| == Max(0, stop.value - start)
    ensures stop.None? ==> |prepared| == |Slice(xs, start, stop)|
  {
    var clipped := Present(Slice(xs, start, stop));
    prepared := clipped;
    if stop.Some? && stop.value - start > |clipped| {
      prepared := clipped + Nones(stop.value - start - |clipped|);
    }
  }

  /** One step of the inner loop of `read`: the sub selection of one prepared main object. */
  method ReadSubEntry(mainObject: Option<Obj>, sb: Branch) returns (r: Result<Selection>)
    ensures r == SubEntry(mainObject, sb)
  {
    if mainObject.None? {
      if sb.stop.None? {
        return Ok([None]);
      }
      return Ok(Nones(sb.stop.value - sb.start));
    }
    var o := mainObject.value;
    if sb.obj !in o.attrs {
      return Err(AttributeError);
    }
    var entry := Prepare(o.attrs[sb.obj], sb.start, sb.stop);
    return Ok(entry);
  }

  /** The inner loop of `read`: one sub selection per prepared main object, up to the first error. */
  method SubsPerMain(prepared: Selection, sb: Branch) returns (r: Result<seq<Selection>>)
    ensures r == MapResult(SubEntryFn(sb), prepared)
  {
    var f := SubEntryFn(sb);
    var perMain: seq<Selection> := [];
    var j := 0;
    assert prepared[j..] == prepared;
    PrependNothing(MapResult(f, prepared));
    while j < |prepared|
      invariant 0 <= j <= |prepared|
      invariant MapResult(f, prepared) == Prepend(perMain, MapResult(f, prepared[j..]))
    {
      MapResultStep(f, prepared, j, perMain);
      assert f(prepared[j]) == SubEntry(prepared[j], sb);
      var entry := ReadSubEntry(prepared[j], sb);
      if entry.Err? {
        return Err(entry.error);
      }
      perMain := perMain + [entry.value];
      j := j + 1;
    }
    assert prepared[j..] == [];
    assert perMain + [] == perMain;
    return Ok(perMain);
  }

  /** `Observable(physics_object, name)` for a class: the identifier is parsed when given. */
  method NewObservable<V>(physicsObject: Option<string>, className: string, name: Option<string>)
    returns (r: Result<Observable<V>>)
    ensures physicsObject.Some? && ParsePhysicsObject(physicsObject.value).Err? ==> r == Err(ValueError)
    ensures physicsObject.None? || ParsePhysicsObject(physicsObject.value).Ok? ==> r.Ok?
    ensures r.Ok? ==> (fresh(r.value) && r.value.physicsObject == physicsObject
      && r.value.objs == (if physicsObject.Some? then ParsePhysicsObject(physicsObject.value).value else [])
      && r.value.givenName == name && r.value.className == className && r.value.value == None)
  {
    var objs: seq<Item> := [];
    if physicsObject.Some? {
      var parsed := ParsePhysicsObject(physicsObject.value);
      if parsed.Err? {
        return Err(ValueError);
      }
      objs := parsed.value;
    }
    var o := new Observable(physicsObject, objs, className, name);
    return Ok(o);
  }

  // ---------------------------------------------------------------------------
  // The registry of observable classes

  /** `Observable.ALL_OBSERVABLES`: names mapped to the class they stand for. */
  class Registry {
    var observables: map<string, string>

    constructor()
      ensures observables == map[]
    {
      observables := map[];
    }

    /** `__init_subclass__`: every subclass is registered under its own name. */
    method RegisterSubclass(className: string)
      modifies this
      ensures observables == old(observables)[className := className]
    {
      observables := observables[className := className];
    }

    /** `add_alias`: each alias now names the class; later aliases overwrite earlier entries. */
    method AddAlias(className: string, aliases: seq<string>)
      modifies this
      ensures observables == WithAliases(old(observables), className, aliases)
    {
      var i := 0;
      while i < |aliases|
        invariant 0 <= i <= |aliases|
        invariant observables == WithAliases(old(observables), className, aliases[..i])
      {
        assert aliases[..i + 1][..i] == aliases[..i];
        observables := observables[aliases[i] := className];
        i := i + 1;
      }
      assert aliases[..i] == aliases;
    }
  }

  /** The registry after adding `aliases` for `className`, one after another. */
  function WithAliases(m: map<string, string>, className: string, aliases: seq<string>): map<string, string> {
    if |aliases| == 0 then m
    else WithAliases(m, className, aliases[..|aliases| - 1])[aliases[|aliases| - 1] := className]
  }

  // ---------------------------------------------------------------------------
  // Properties of parse_branch

  /** A bare letters-only branch such as `Jet` selects the whole field: `(Jet, 0, None)`. */
  lemma ParseLetters(obj: string)
    requires |obj| > 0 && AllLetters(obj)
    ensures ParseBranch(obj) == Ok(Some(Branch(obj, 0, None)))
  {
    assert '\n' !in obj by {
      assert forall i :: 0 <= i < |obj| ==> obj[i] != '\n' by {
        forall i | 0 <= i < |obj| ensures obj[i] != '\n' { assert IsLetter(obj[i]); }
      }
    }
    assert LettersOnly(obj);
    assert obj + ":" == obj + "" + ":" + "";
    ParseAppendedSlice(obj, "", "");
  }

  /** Letters followed by digits, such as `Jet3`, select that one index: `(Jet, 3, 4)`. */
  lemma ParseIndex(obj: string, digits: string)
    requires |obj| > 0 && AllLetters(obj) && |digits| > 0 && AllDigits(digits)
    ensures ParseBranch(obj + digits) == Ok(Some(Branch(obj, DigitsValue(digits), Some(DigitsValue(digits) + 1))))
  {
    Single.MatchOf(obj, digits);
    IndexNotLetters(obj, digits);
    ParseNotLetters(obj + digits);
    ParseAppendedSingle(obj + digits, obj, digits);
  }

  /** A text the single pattern matches selects that one index. */
  lemma ParseAppendedSingle(b: string, obj: string, index: string)
    requires Single.Match(b) == Some((obj, index))
    ensures ParseAppended(b) == Ok(Some(Branch(obj, DigitsValue(index), Some(DigitsValue(index) + 1))))
  {
    var m := Single.Match(b);
    assert m.value.0 == obj && m.value.1 == index;
  }

  /** Letters followed by digits are not letters only. */
  lemma IndexNotLetters(obj: string, digits: string)
    requires |digits| > 0 && AllDigits(digits) && Single.Match(obj + digits) == Some((obj, digits))
    ensures !LettersOnly(obj + digits)
  {
    var s := obj + digits;
    assert s[|obj|] == digits[0];
  }

  /** A branch that is not letters-only goes to the patterns as it is. */
  lemma ParseNotLetters(s: string)
    requires !LettersOnly(s)
    ensures ParseBranch(s) == ParseAppended(s)
  {
  }

  /**
   * With a colon, an omitted start is 0 and an omitted stop is None: the branch
   * `obj + a + ":" + b` selects from `a` (or 0) up to `b` (or the end).
   */
  lemma ParseSlice(obj: string, a: string, b: string)
    requires |obj| > 0 && AllLetters(obj) && AllDigits(a) && AllDigits(b)
    ensures ParseBranch(obj + a + ":" + b) == Ok(Some(Branch(obj,
      if a == "" then 0 else DigitsValue(a), if b == "" then None else Some(DigitsValue(b)))))
  {
    var s := obj + a + ":" + b;
    SliceText(obj, a, b);
    assert !LettersOnly(s) by {
      assert DollarBody(s) == s;
      assert !IsLetter(s[|obj| + |a|]);
    }
    ParseAppendedSlice(obj, a, b);
  }

  /** The facts about `obj + a + ":" + b` that the slice lemmas share. */
  lemma SliceText(obj: string, a: string, b: string)
    requires |obj| > 0 && AllLetters(obj) && AllDigits(a) && AllDigits(b)
    ensures var s := obj + a + ":" + b;
      && '\n' !in s && s[|obj| + |a|] == ':'
      && LetterRun(s) == |obj| && s[..|obj|] == obj && s[|obj|..] == a + ":" + b
  {
    var s := obj + a + ":" + b;
    forall i | 0 <= i < |s| ensures s[i] != '\n' {
      if i < |obj| { assert IsLetter(s[i]); }
      else if i < |obj| + |a| { assert IsDigit(a[i - |obj|]); }
      else if i > |obj| + |a| { assert IsDigit(b[i - |obj| - |a| - 1]); }
    }
    assert s == obj + (a + ":" + b);
    if a == "" {
      assert (a + ":" + b)[0] == ':';
    } else {
      assert (a + ":" + b)[0] == a[0];
    }
    LetterRunOfLetters(obj, a + ":" + b);
  }

  /** What the two patterns make of `obj + a + ":" + b`. */
  lemma ParseAppendedSlice(obj: string, a: string, b: string)
    requires |obj| > 0 && AllLetters(obj) && AllDigits(a) && AllDigits(b)
    ensures ParseAppended(obj + a + ":" + b) == Ok(Some(Branch(obj,
      if a == "" then 0 else DigitsValue(a), if b == "" then None else Some(DigitsValue(b)))))
  {
    var s := obj + a + ":" + b;
    var rest := a + ":" + b;
    SliceText(obj, a, b);
    assert DollarBody(s) == s;
    assert Single.Match(s).None? by {
      assert !IsDigit(s[|obj|..][|a|]);
    }
    DigitsColonDigitsOf(a, b);
    assert SliceMatch(s) == Some((obj, rest));
    assert ':' !in a by { assert forall i :: 0 <= i < |a| ==> IsDigit(a[i]); }
    assert ':' !in b by { assert forall i :: 0 <= i < |b| ==> IsDigit(b[i]); }
    assert Join([a, b], ":") == rest;
    SplitOnJoin([a, b], ':');
  }

  /** Any branch that is neither letters only nor letters, digits, an optional colon and digits gives None. */
  lemma ParseOther(branch: string)
    requires !LettersOnly(branch) && !Nested.Segment(DollarBody(branch))
    ensures ParseBranch(branch) == Ok(None)
  {
  }

  /** `parse_branch` never raises: a slice text reached by the second pattern always holds one colon. */
  lemma AppendedNeverRaises(branch: string)
    ensures ParseAppended(AppendColon(branch)).Ok?
  {
    var b := AppendColon(branch);
    if Single.Match(b).None? && SliceMatch(b).Some? {
      var (obj, agnostic) := SliceMatch(b).value;
      DigitsColonDigitsPieces(agnostic);
    }
  }

  // ---------------------------------------------------------------------------
  // Properties of parse_physics_object and read

  /** Components without commas, joined by commas, parse one item per component, in order. */
  lemma ParseComponents(parts: seq<string>)
    requires |parts| > 0 && forall k :: 0 <= k < |parts| ==> ',' !in parts[k]
    ensures var r := ParsePhysicsObject(Join(parts, ","));
      && (r.Ok? <==> forall k :: 0 <= k < |parts| ==> ParseItem(parts[k]).Ok?)
      && (r.Ok? ==> |r.value| == |parts| && forall k :: 0 <= k < |parts| ==> ParseItem(parts[k]) == Ok(r.value[k]))
  {
    SplitOnJoin(parts, ',');
  }

  /** A component without a comma parses as a single item. */
  lemma ParseOneComponent(s: string)
    requires ',' !in s && ParseItem(s).Ok?
    ensures ParsePhysicsObject(s) == Ok([ParseItem(s).value])
  {
    NoCharIndexOf(s, ',');
    assert SplitOn(s, ",") == [s];
    var r := ParsePhysicsObject(s);
    assert r.Ok? && |r.value| == 1 && ParseItem(s) == Ok(r.value[0]);
    assert r.value == [r.value[0]];
  }

  /** `M:a.S:b`, with letters-only fields and digit stops: the first `a` mains and the first `b` subs of each. */
  lemma ParseBoundedNested(m: string, a: string, sub: string, b: string)
    requires |m| > 0 && AllLetters(m) && |a| > 0 && AllDigits(a)
    requires |sub| > 0 && AllLetters(sub) && |b| > 0 && AllDigits(b)
    ensures ParsePhysicsObject((m + ":" + a) + "." + (sub + ":" + b))
      == Ok([Item(Some(Branch(m, 0, Some(DigitsValue(a)))), Some(Some(Branch(sub, 0, Some(DigitsValue(b))))))])
  {
    NestedItem(m, a, sub, b);
    NoCommaNested(m, a, sub, b);
    ParseOneComponent((m + ":" + a) + "." + (sub + ":" + b));
  }

  lemma NoCommaNested(m: string, a: string, sub: string, b: string)
    requires AllLetters(m) && AllDigits(a) && AllLetters(sub) && AllDigits(b)
    ensures ',' !in (m + ":" + a) + "." + (sub + ":" + b)
  {
    NoSeparators(m, a);
    NoSeparators(sub, b);
  }

  /** The item `M:a.S:b` parses to. */
  lemma NestedItem(m: string, a: string, sub: string, b: string)
    requires |m| > 0 && AllLetters(m) && |a| > 0 && AllDigits(a)
    requires |sub| > 0 && AllLetters(sub) && |b| > 0 && AllDigits(b)
    ensures ParseItem((m + ":" + a) + "." + (sub + ":" + b))
      == Ok(Item(Some(Branch(m, 0, Some(DigitsValue(a)))), Some(Some(Branch(sub, 0, Some(DigitsValue(b)))))))
  {
    PrefixBranch(m, a);
    PrefixBranch(sub, b);
    ParseItemNested(m + ":" + a, sub + ":" + b);
  }

  /** `M:a` selects the first `a` objects of `M`, and holds no period. */
  lemma PrefixBranch(m: string, a: string)
    requires |m| > 0 && AllLetters(m) && |a| > 0 && AllDigits(a)
    ensures ParseBranch(m + ":" + a) == Ok(Some(Branch(m, 0, Some(DigitsValue(a)))))
    ensures '.' !in m + ":" + a
  {
    NoSeparators(m, a);
    assert m + "" == m;
    ParseSlice(m, "", a);
  }

  /** Letters, a colon and digits hold no period and no comma. */
  lemma NoSeparators(obj: string, digits: string)
    requires AllLetters(obj) && AllDigits(digits)
    ensures '.' !in obj + ":" + digits && ',' !in obj + ":" + digits
  {
    var t := obj + ":" + digits;
    forall k | 0 <= k < |t| ensures t[k] != '.' && t[k] != ',' {
      if k < |obj| { assert IsLetter(t[k]); }
      else if k > |obj| { assert IsDigit(digits[k - |obj| - 1]); }
    }
  }

  /** `Jet:2.Constituents:10`: the first two jets, and the first ten constituents of each. */
  lemma ParseJetsConstituents()
    ensures ParsePhysicsObject("Jet:2.Constituents:10")
      == Ok([Item(Some(Branch("Jet", 0, Some(2))), Some(Some(Branch("Constituents", 0, Some(10)))))])
  {
    assert AllLetters("Jet") && AllLetters("Constituents");
    assert AllDigits("2") && AllDigits("10");
    assert DigitsValue("2") == 2 by { assert "2"[..0] == ""; }
    assert DigitsValue("10") == 10 by { assert "10"[..1] == "1" && "1"[..0] == ""; }
    assert "Jet:2.Constituents:10" == ("Jet" + ":" + "2") + "." + ("Constituents" + ":" + "10");
    ParseBoundedNested("Jet", "2", "Constituents", "10");
  }

  /** A component with one period is its main branch and its sub branch. */
  lemma ParseItemNested(main: string, sub: string)
    requires '.' !in main && '.' !in sub
    ensures ParseItem(main + "." + sub) == Ok(Item(ParseBranch(main).value, Some(ParseBranch(sub).value)))
  {
    var s := main + "." + sub;
    assert s[|main|] == '.';
    assert Join([main, sub], ".") == s;
    SplitOnJoin([main, sub], '.');
  }

  /**
   * What a successfully read component contributes: its main branch is a field of
   * the event and its main list is that field's selection; without a sub its sub
   * list is `[]`, with one it holds one sub selection per main entry.
   */
  predicate ComponentRead(event: Event, item: Item, main: Selection, subs: seq<Selection>) {
    && item.main.Some? && item.main.value.obj in event.branches
    && main == Select(event.branches[item.main.value.obj], item.main.value.start, item.main.value.stop)
    && ((item.sub.None? || item.sub.value.None?) ==> subs == [])
    && (item.sub.Some? && item.sub.value.Some? ==> MapResult(SubEntryFn(item.sub.value.value), main) == Ok(subs))
  }

  /** A step that does not fail appends one component's lists, read as `ComponentRead` says. */
  lemma StepRead(event: Event, st: ReadState, item: Item)
    requires st.failure.None? && Step(event, st, item).failure.None?
    ensures var r := Step(event, st, item);
      && |r.mains| == |st.mains| + 1 && |r.subs| == |st.subs| + 1
      && r.mains[..|st.mains|] == st.mains && r.subs[..|st.subs|] == st.subs
      && ComponentRead(event, item, r.mains[|st.mains|], r.subs[|st.subs|])
  {
  }

  /** A step whose component reads as `ComponentRead` says appends exactly those lists. */
  lemma StepOfRead(event: Event, st: ReadState, item: Item, main: Selection, subs: seq<Selection>)
    requires st.failure.None? && ComponentRead(event, item, main, subs)
    ensures Step(event, st, item) == ReadState(st.mains + [main], st.subs + [subs], None)
  {
    assert MainSelection(event, item.main.value) == Ok(main);
    if item.sub.Some? && item.sub.value.Some? {
      assert MapResult(SubEntryFn(item.sub.value.value), main) == Ok(subs);
    }
  }

  /**
   * After a successful read there is one main list and one sub list per component,
   * each read from the event as `ComponentRead` says.
   */
  lemma {:induction false} ReadEntries(event: Event, items: seq<Item>)
    requires ReadItems(event, items).failure.None?
    ensures var st := ReadItems(event, items);
      && |st.mains| == |st.subs| == |items|
      && forall i :: 0 <= i < |items| ==> ComponentRead(event, items[i], st.mains[i], st.subs[i])
  {
    if |items| > 0 {
      var n := |items| - 1;
      var init := items[..n];
      ReadEntries(event, init);
      var st0 := ReadItems(event, init);
      StepRead(event, st0, items[n]);
      assert items == init + [items[n]];
      EntriesSnoc(event, init, items[n], st0, ReadItems(event, items));
    }
  }

  /** Lists read component by component stay so when one more component's lists are appended. */
  lemma EntriesSnoc(event: Event, init: seq<Item>, item: Item, st0: ReadState, st: ReadState)
    requires |st0.mains| == |st0.subs| == |init|
    requires forall i :: 0 <= i < |init| ==> ComponentRead(event, init[i], st0.mains[i], st0.subs[i])
    requires |st.mains| == |st0.mains| + 1 && |st.subs| == |st0.subs| + 1
    requires st.mains[..|st0.mains|] == st0.mains && st.subs[..|st0.subs|] == st0.subs
    requires ComponentRead(event, item, st.mains[|st0.mains|], st.subs[|st0.subs|])
    ensures var items := init + [item];
      && |st.mains| == |st.subs| == |items|
      && forall i :: 0 <= i < |items| ==> ComponentRead(event, items[i], st.mains[i], st.subs[i])
  {
    var items := init + [item];
    forall i | 0 <= i < |items| ensures ComponentRead(event, items[i], st.mains[i], st.subs[i]) {
      if i < |init| {
        assert items[i] == init[i];
        assert st.mains[..|st0.mains|][i] == st.mains[i] && st.subs[..|st0.subs|][i] == st.subs[i];
      }
    }
  }

  /**
   * Conversely, lists that each component reads as `ComponentRead` says are exactly
   * what a read leaves, with no error.
   */
  lemma {:induction false} ReadOfEntries(event: Event, items: seq<Item>, mains: seq<Selection>, subs: seq<seq<Selection>>)
    requires |mains| == |subs| == |items|
    requires forall i :: 0 <= i < |items| ==> ComponentRead(event, items[i], mains[i], subs[i])
    ensures ReadItems(event, items) == ReadState(mains, subs, None)
  {
    if |items| > 0 {
      var n := |items| - 1;
      EntriesPrefix(event, items, mains, subs, n);
      ReadOfEntries(event, items[..n], mains[..n], subs[..n]);
      StepOfRead(event, ReadState(mains[..n], subs[..n], None), items[n], mains[n], subs[n]);
      assert mains[..n] + [mains[n]] == mains;
      assert subs[..n] + [subs[n]] == subs;
    }
  }

  /** The components of a prefix are read as the whole list says. */
  lemma EntriesPrefix(event: Event, items: seq<Item>, mains: seq<Selection>, subs: seq<seq<Selection>>, n: nat)
    requires n <= |mains| == |subs| == |items|
    requires forall i :: 0 <= i < |items| ==> ComponentRead(event, items[i], mains[i], subs[i])
    ensures forall i :: 0 <= i < n ==> ComponentRead(event, items[..n][i], mains[..n][i], subs[..n][i])
  {
    forall i | 0 <= i < n ensures ComponentRead(event, items[..n][i], mains[..n][i], subs[..n][i]) {
      assert items[..n][i] == items[i] && mains[..n][i] == mains[i] && subs[..n][i] == subs[i];
    }
  }

  /** For a real main object, a bounded sub list has `max(0, stop - start)` entries, None-padded. */
  lemma SubEntryBounded(o: Obj, sb: Branch)
    requires sb.obj in o.attrs && sb.stop.Some?
    ensures SubEntry(Some(o), sb).Ok?
    ensures var e := SubEntry(Some(o), sb).value; var leaves := o.attrs[sb.obj];
      && |e| == Max(0, sb.stop.value - sb.start)
      && forall k :: 0 <= k < |e| ==> e[k] == if sb.start + k < |leaves| then Some(leaves[sb.start + k]) else None
  {
    SelectBounded(o.attrs[sb.obj], sb.start, sb.stop.value);
  }

  /** A None main gives `[None]` for an unbounded sub and `max(0, stop - start)` Nones for a bounded one. */
  lemma SubEntryOfNone(sb: Branch)
    ensures SubEntry(None, sb) == Ok(if sb.stop.None? then [None] else Nones(sb.stop.value - sb.start))
    ensures |SubEntry(None, sb).value| == if sb.stop.None? then 1 else Max(0, sb.stop.value - sb.start)
  {
  }

  /** Every sub list of a bounded sub has `max(0, stop - start)` entries, whether or not its main object exists. */
  lemma SubEntryLength(m: Option<Obj>, sb: Branch)
    requires sb.stop.Some? && SubEntry(m, sb).Ok?
    ensures |SubEntry(m, sb).value| == Max(0, sb.stop.value - sb.start)
  {
    if m.Some? {
      SelectBounded(m.value.attrs[sb.obj], sb.start, sb.stop.value);
    }
  }

  // ---------------------------------------------------------------------------
  // `read` as written, where a None main object pads its sub list with
  // `required_sub_length`, a local that only real main objects assign

  /** The local `required_sub_length`: not yet assigned, assigned None, or assigned a number. */
  datatype SubLength = Unassigned | NoLength | Length(n: int)

  /** One main object's sub list as written, with the local before and after. */
  function SubEntryAsWritten(mainObject: Option<Obj>, sb: Branch, len: SubLength): (r: (Result<Selection>, SubLength))
    ensures mainObject.None? ==> r.1 == len
  {
    match mainObject
    case None =>
      if sb.stop.None? then (Ok([None]), len)
      else
        (match len
         case Unassigned => (Err(UnboundLocalError), len)
         case NoLength => (Err(TypeError), len)
         case Length(n) => (Ok(Nones(n)), len))
    case Some(o) =>
      if sb.obj !in o.attrs then (Err(AttributeError), len)
      else (Ok(Select(o.attrs[sb.obj], sb.start, sb.stop)),
            if sb.stop.None? then NoLength else Length(sb.stop.value - sb.start))
  }

  /** The sub lists of one component as written, threading the local through its main objects. */
  function SubsAsWritten(mains: Selection, sb: Branch, len: SubLength): (r: (Result<seq<Selection>>, SubLength))
    ensures r.0.Ok? ==> |r.0.value| == |mains|
  {
    if |mains| == 0 then (Ok([]), len)
    else
      var (e, len1) := SubEntryAsWritten(mains[0], sb, len);
      if e.Err? then (Err(e.error), len1)
      else
        var (rest, len2) := SubsAsWritten(mains[1..], sb, len1);
        (Prepend([e.value], rest), len2)
  }

  /** One component read as written. */
  function StepAsWritten(event: Event, st: ReadState, len: SubLength, item: Item): (r: (ReadState, SubLength))
    requires st.failure.None?
  {
    match item.main
    case None => (st.(failure := Some(TypeError)), len)
    case Some(mb) =>
      match MainSelection(event, mb)
      case Err(e) => (st.(failure := Some(e)), len)
      case Ok(sel) =>
        var mains := st.mains + [sel];
        if item.sub.None? || item.sub.value.None? then (ReadState(mains, st.subs + [[]], None), len)
        else
          var (perMain, len1) := SubsAsWritten(sel, item.sub.value.value, len);
          match perMain
          case Ok(ps) => (ReadState(mains, st.subs + [ps], None), len1)
          case Err(e) => (ReadState(mains, st.subs, Some(e)), len1)
  }

  /** The components read as written, from a state and a value of the local, stopping at the first error. */
  function ReadFromAsWritten(event: Event, st: ReadState, len: SubLength, items: seq<Item>): (r: ReadState)
    requires st.failure.None?
    decreases |items|
  {
    if |items| == 0 then st
    else
      var (st1, len1) := StepAsWritten(event, st, len, items[0]);
      if st1.failure.Some? then st1 else ReadFromAsWritten(event, st1, len1, items[1..])
  }

  /** `read` as written: the local starts unassigned, once per call. */
  function ReadAsWritten(event: Event, items: seq<Item>): ReadState {
    ReadFromAsWritten(event, ReadState([], [], None), Unassigned, items)
  }

  /** `Jet:1.Constituents:2` on an event without jets: the bounded sub of the padded main. */
  function MissingJetItem(): Item {
    Item(Some(Branch("Jet", 0, Some(1))), Some(Some(Branch("Constituents", 0, Some(2)))))
  }

  function NoJets(): Event {
    Event(map["Jet" := []], {})
  }

  /** As written, a missing main object before any real one raises UnboundLocalError. */
  lemma AsWrittenUnbound()
    ensures ReadAsWritten(NoJets(), [MissingJetItem()]).failure == Some(UnboundLocalError)
  {
    var sel := Select(NoJets().branches["Jet"], 0, Some(1));
    assert sel == [None] by { SelectBounded(NoJets().branches["Jet"], 0, 1); }
    assert SubsAsWritten(sel, Branch("Constituents", 0, Some(2)), Unassigned).0 == Err(UnboundLocalError);
  }

  /** Corrected, the same read succeeds with a sub list of two Nones for the missing jet. */
  lemma CorrectedUnbound()
    ensures ReadItems(NoJets(), [MissingJetItem()]) == ReadState([[None]], [[[None, None]]], None)
  {
    var sel := Select(NoJets().branches["Jet"], 0, Some(1));
    assert sel == [None] by { SelectBounded(NoJets().branches["Jet"], 0, 1); }
    var sb := Branch("Constituents", 0, Some(2));
    assert Nones<Obj>(2) == [None, None] by { assert Nones<Obj>(1) == [None]; }
    assert SubEntry(None, sb) == Ok([None, None]);
    MapResultAll(SubEntryFn(sb), sel, [[None, None]]);
    assert [MissingJetItem()][..0] == [];
  }

  /** A jet without constituents, then `Jet0.Constituents:5,Jet9:10.Tracks:3` */
  function OneJet(): Event {
    Event(map["Jet" := [Obj(0, map["Constituents" := []])]], {})
  }

  function StaleItems(): seq<Item> {
    [Item(Some(Branch("Jet", 0, Some(1))), Some(Some(Branch("Constituents", 0, Some(5))))),
     Item(Some(Branch("Jet", 9, Some(10))), Some(Some(Branch("Tracks", 0, Some(3)))))]
  }

  /** As written, the missing tenth jet gets five Nones, the length left over from the first component. */
  lemma AsWrittenStale()
    ensures var st := ReadAsWritten(OneJet(), StaleItems());
      st.failure.None? && |st.subs| == 2 && st.subs[1] == [Nones(5)]
  {
    var st1 := StaleFirstStep();
    StaleSecondStep(st1);
    assert StaleItems()[1..] == [StaleItems()[1]];
  }

  /** The first component of `StaleItems` leaves five as the length of a bounded sub. */
  lemma StaleFirstStep() returns (st1: ReadState)
    ensures st1.failure.None? && |st1.subs| == 1
    ensures StepAsWritten(OneJet(), ReadState([], [], None), Unassigned, StaleItems()[0]) == (st1, Length(5))
  {
    var jets := OneJet().branches["Jet"];
    var j := jets[0];
    var sel0 := Select(jets, 0, Some(1));
    assert sel0 == [Some(j)] by { SelectBounded(jets, 0, 1); }
    var sb0 := Branch("Constituents", 0, Some(5));
    var e0 := Select(j.attrs["Constituents"], 0, Some(5));
    assert SubEntryAsWritten(Some(j), sb0, Unassigned) == (Ok(e0), Length(5));
    assert sel0[0] == Some(j) && sel0[1..] == [] && [e0] + [] == [e0];
    assert SubsAsWritten(sel0, sb0, Unassigned) == (Ok([e0]), Length(5));
    assert MainSelection(OneJet(), StaleItems()[0].main.value) == Ok(sel0);
    assert StaleItems()[0].sub.value.value == sb0;
    assert [] + [sel0] == [sel0] && [] + [[e0]] == [[e0]];
    st1 := ReadState([sel0], [[e0]], None);
  }

  /** With five left over, the missing tenth jet of the second component gets five Nones. */
  lemma StaleSecondStep(st: ReadState)
    requires st.failure.None?
    ensures StepAsWritten(OneJet(), st, Length(5), StaleItems()[1])
      == (ReadState(st.mains + [[None]], st.subs + [[Nones(5)]], None), Length(5))
  {
    var jets := OneJet().branches["Jet"];
    var sel1 := Select(jets, 9, Some(10));
    assert sel1 == [None] by { SelectBounded(jets, 9, 10); }
    var sb1 := Branch("Tracks", 0, Some(3));
    assert sel1[0] == None && sel1[1..] == [] && [Nones<Obj>(5)] + [] == [Nones(5)];
    assert SubsAsWritten(sel1, sb1, Length(5)) == (Ok([Nones(5)]), Length(5));
    assert MainSelection(OneJet(), StaleItems()[1].main.value) == Ok(sel1);
    assert StaleItems()[1].sub.value.value == sb1;
  }

  /** Corrected, the missing tenth jet gets three Nones, as its own sub asks. */
  lemma CorrectedStale()
    ensures var st := ReadItems(OneJet(), StaleItems());
      st.failure.None? && |st.subs| == 2 && st.subs[1] == [Nones(3)]
  {
    var jets := OneJet().branches["Jet"];
    var j := jets[0];
    var sel0 := Select(jets, 0, Some(1));
    assert sel0 == [Some(j)] by { SelectBounded(jets, 0, 1); }
    var sel1 := Select(jets, 9, Some(10));
    assert sel1 == [None] by { SelectBounded(jets, 9, 10); }
    var sb0 := Branch("Constituents", 0, Some(5));
    var e0 := Select(j.attrs["Constituents"], 0, Some(5));
    MapResultAll(SubEntryFn(sb0), sel0, [e0]);
    var sb1 := Branch("Tracks", 0, Some(3));
    MapResultAll(SubEntryFn(sb1), sel1, [Nones(3)]);
    ReadOfEntries(OneJet(), StaleItems(), [sel0, sel1], [[e0], [Nones(3)]]);
  }

  /** `add_alias` makes every alias name the class and leaves every other name as it was. */
  lemma {:induction false} WithAliasesLookup(m: map<string, string>, className: string, aliases: seq<string>, key: string)
    ensures key in aliases ==> key in WithAliases(m, className, aliases) && WithAliases(m, className, aliases)[key] == className
    ensures key !in aliases ==> (key in WithAliases(m, className, aliases) <==> key in m)
    ensures key !in aliases && key in m ==> WithAliases(m, className, aliases)[key] == m[key]
  {
    if |aliases| > 0 {
      var init := aliases[..|aliases| - 1];
      WithAliasesLookup(m, className, init, key);
      assert aliases == init + [aliases[|aliases| - 1]];
    }
  }
}
