/**
 * `NestedPhysicsObject` (hml/physics_objects/nested.py): objects inside objects, such
 * as the constituents of the leading jet, written `main.sub` as in `Jet0.Constituents:10`.
 * Each half is a single or a collective physics object.
 */
module Nested {
  import opened Wrappers
  import opened Strings
  import opened Events
  import opened Configs
  import Single

  /**
   * `CollectivePhysicsObject`, which nested.py imports but which no file shown defines:
   * what nested.py uses of it. `start` and `end` may be None; `name` and `config` are
   * what its `name` and `config` give.
   */
  datatype CollectivePhysicsObject =
    CollectivePhysicsObject(typeName: string, start: Option<nat>, end: Option<nat>, name: string, config: Configs.Config)

  /** The operations of `CollectivePhysicsObject` that nested.py calls, left abstract. */
  datatype CollectiveApi = CollectiveApi(
    fromName: string -> Result<CollectivePhysicsObject>,
    read: (CollectivePhysicsObject, Event) -> Result<seq<Option<Obj>>>,
    fromConfig: Configs.Config -> Result<CollectivePhysicsObject>)

  /** One half of a nested object. */
  datatype Part = SinglePart(single: Single.SinglePhysicsObject) | CollectivePart(collective: CollectivePhysicsObject) {
    function TypeName(): string {
      match this
      case SinglePart(s) => s.typeName
      case CollectivePart(c) => c.typeName
    }

    function Name(): string {
      match this
      case SinglePart(s) => s.Name()
      case CollectivePart(c) => c.name
    }

    function Config(): Configs.Config {
      match this
      case SinglePart(s) => s.Config()
      case CollectivePart(c) => c.config
    }

    /** `main.read(event)`, with a result that is not a list wrapped as a one-element list. */
    function ReadAsList(event: Event, api: CollectiveApi): (r: Result<seq<Option<Obj>>>)
      ensures SinglePart? && r.Ok? ==> |r.value| == 1
    {
      match this
      case SinglePart(s) =>
        var o :- s.Read(event);
        Ok([o])
      case CollectivePart(c) => api.read(c, event)
    }
  }

  /** What `read` gives for one main object: one object (or None) for a single sub, a list for a collective sub. */
  datatype Entry = One(obj: Option<Obj>) | Many(objs: seq<Option<Obj>>)

  // ---------------------------------------------------------------------------
  // The pattern `^([A-Za-z]+\d*:?\d*)\.([A-Za-z]+\d*:?\d*)$`

  /** One half of the pattern: letters, digits, an optional colon, digits. */
  predicate Segment(x: string) {
    LetterRun(x) > 0 && DigitsColonDigits(x[LetterRun(x)..])
  }

  lemma SegmentHasNoPeriod(x: string)
    requires Segment(x)
    ensures '.' !in x && '\n' !in x && NoSpaces(x)
  {
    var n := LetterRun(x);
    var rest := x[n..];
    var d := DigitRun(rest);
    var rest2 := rest[d..];
    forall i | 0 <= i < |x| ensures x[i] != '.' && x[i] != '\n' && !IsSpace(x[i]) {
      if i < n {
        assert x[..n][i] == x[i];
      } else if i < n + d {
        assert rest[..d][i - n] == x[i];
      } else if i == n + d {
        assert rest2[0] == x[i];
      } else {
        assert rest2[1..][i - n - d - 1] == x[i];
      }
    }
  }

  /** The two groups of the pattern (a final newline, which `$` allows, is in neither). */
  function Match(s: string): (r: Option<(string, string)>)
    ensures r.Some? ==> DollarBody(s) == r.value.0 + "." + r.value.1
    ensures r.Some? ==> Segment(r.value.0) && Segment(r.value.1)
  {
    var b := DollarBody(s);
    match IndexOf(b, ".")
    case None => None
    case Some(i) =>
      if Segment(b[..i]) && Segment(b[i + 1..]) then
        AroundIndex(b, i, ".");
        Some((b[..i], b[i + 1..]))
      else None
  }

  /** The pattern matches exactly the texts made of two segments joined by one period. */
  lemma MatchIff(s: string, g1: string, g2: string)
    requires DollarBody(s) == g1 + "." + g2
    ensures Match(s) == Some((g1, g2)) <==> Segment(g1) && Segment(g2)
  {
    var b := DollarBody(s);
    if Segment(g1) {
      SegmentHasNoPeriod(g1);
      FirstPeriod(g1, g2);
      assert b[..|g1|] == g1 && b[|g1| + 1..] == g2;
    }
  }

  /** The first period of `g1 + "." + g2`, when `g1` has none, is the one after `g1`. */
  lemma {:induction false} FirstPeriod(g1: string, g2: string)
    requires '.' !in g1
    ensures IndexOf(g1 + "." + g2, ".") == Some(|g1|)
    decreases |g1|
  {
    var t := g1 + "." + g2;
    if |g1| > 0 {
      assert !StartsWith(t, ".") by { assert t[0] == g1[0]; }
      assert t[1..] == g1[1..] + "." + g2;
      FirstPeriod(g1[1..], g2);
    } else {
      assert t[..1] == ".";
    }
  }

  /** `is_nested_physics_object` on a string or None. */
  function IsNested(identifier: Option<string>): (r: bool)
    ensures identifier == None || identifier == Some("") ==> !r
    ensures identifier.Some? ==> (r <==> Match(identifier.value).Some?)
  {
    match identifier
    case None => false
    case Some(s) => s != "" && Match(s).Some?
  }

  /** A half of the name: a single physics object when it matches that pattern, otherwise a collective one. */
  function PartFromName(g: string, api: CollectiveApi): (r: Result<Part>)
    ensures r.Ok? ==> (r.value.SinglePart? <==> Single.IsSingle(Some(g)))
    ensures !Single.IsSingle(Some(g)) ==> (r.Ok? <==> api.fromName(g).Ok?)
    ensures !Single.IsSingle(Some(g)) && r.Ok? ==> r.value == CollectivePart(api.fromName(g).value)
  {
    if Single.IsSingle(Some(g)) then
      var s :- Single.FromName(g);
      Ok(SinglePart(s))
    else
      var c :- api.fromName(g);
      Ok(CollectivePart(c))
  }

  datatype NestedPhysicsObject = NestedPhysicsObject(main: Part, sub: Part, givenName: Option<string>) {

    /** `name`: the name it was read from, if any, otherwise the two names joined by a period. */
    function Name(): (s: string)
      ensures givenName.None? ==> s == main.Name() + "." + sub.Name()
    {
      match givenName
      case Some(n) => n
      case None => main.Name() + "." + sub.Name()
    }

    function Config(): (c: Configs.Config)
      ensures c.Keys == {"class_name", "main_config", "sub_config"}
    {
      map["class_name" := Str("NestedPhysicsObject"), "main_config" := Dict(main.Config()),
          "sub_config" := Dict(sub.Config())]
    }

    /** The leaf `read` requires the event to have. */
    function LeafName(): string {
      main.TypeName() + "." + sub.TypeName()
    }

    /** The entry `read` appends for one main object. */
    function SubEntry(mainObject: Option<Obj>): (r: Result<Entry>)
      ensures mainObject.None? ==> r == Ok(if sub.SinglePart? then One(None) else Many([None]))
    {
      match mainObject
      case None => Ok(if sub.SinglePart? then One(None) else Many([None]))
      case Some(o) =>
        if sub.TypeName() !in o.attrs then Err(AttributeError)
        else
          var leaves := o.attrs[sub.TypeName()];
          match sub
          case SinglePart(s) =>
            if s.index >= |leaves| then Ok(One(None))
            else if s.index >= 0 then Ok(One(Some(leaves[s.index])))
            else if s.index >= -|leaves| then Ok(One(Some(leaves[|leaves| + s.index])))
            else Err(IndexError)
          case CollectivePart(c) =>
            if c.start.None? && c.end.None? then Ok(Many(Present(leaves)))
            else if c.end.None? then Ok(Many(Present(Slice(leaves, c.start.value, None))))
            else if c.start.None? then Ok(Many(PadTo(Present(Slice(leaves, 0, c.end)), c.end.value)))
            else Ok(Many(PadTo(Present(Slice(leaves, c.start.value, c.end)), c.end.value - c.start.value)))
    }

    /** What `read` returns. */
    function ReadSpec(event: Event, api: CollectiveApi): (r: Result<seq<Entry>>)
      ensures LeafName() !in event.leaves ==> r == Err(ValueError)
      ensures r.Ok? ==> main.ReadAsList(event, api).Ok? && |r.value| == |main.ReadAsList(event, api).value|
    {
      if LeafName() !in event.leaves then Err(ValueError)
      else
        var mains :- main.ReadAsList(event, api);
        MapResult(EntryOf(this), mains)
    }

    /** The body of `read`'s loop for a main object that exists. */
    method ReadObject(o: Obj) returns (r: Result<Entry>)
      ensures r == SubEntry(Some(o))
    {
      if sub.TypeName() !in o.attrs {
        return Err(AttributeError);
      }
      var leaves := o.attrs[sub.TypeName()];
      match sub
      case SinglePart(s) => {
        if s.index >= |leaves| {
          r := Ok(One(None));
        } else if s.index >= 0 {
          r := Ok(One(Some(leaves[s.index])));
        } else if s.index >= -|leaves| {
          r := Ok(One(Some(leaves[|leaves| + s.index])));
        } else {
          r := Err(IndexError);
        }
      }
      case CollectivePart(c) => {
        if c.start.None? && c.end.None? {
          r := Ok(Many(Present(leaves)));
        } else if c.end.None? {
          r := Ok(Many(Present(Slice(leaves, c.start.value, None))));
        } else if c.start.None? {
          var objects := Present(Slice(leaves, 0, c.end));
          if |objects| < c.end.value {
            objects := objects + Nones(c.end.value - |objects|);
          }
          r := Ok(Many(objects));
        } else {
          var objects := Present(Slice(leaves, c.start.value, c.end));
          if |objects| < c.end.value - c.start.value {
            objects := objects + Nones(c.end.value - c.start.value - |objects|);
          }
          r := Ok(Many(objects));
        }
      }
    }

    /** `read`: one entry per main object, appended in order. */
    method Read(event: Event, api: CollectiveApi) returns (r: Result<seq<Entry>>)
      ensures r == ReadSpec(event, api)
    {
      if LeafName() !in event.leaves {
        return Err(ValueError);
      }
      var mainObjects := main.ReadAsList(event, api);
      if mainObjects.Err? {
        return Err(mainObjects.error);
      }
      var mains := mainObjects.value;
      var f := EntryOf(this);
      var subObjects: seq<Entry> := [];
      var i := 0;
      assert mains[i..] == mains;
      PrependNothing(MapResult(f, mains));
      while i < |mains|
        invariant 0 <= i <= |mains|
        invariant MapResult(f, mains) == Prepend(subObjects, MapResult(f, mains[i..]))
      {
        MapResultStep(f, mains, i, subObjects);
        var entry: Entry;
        if mains[i].None? {
          if sub.SinglePart? {
            entry := One(None);
          } else {
            entry := Many([None]);
          }
        } else {
          var e := ReadObject(mains[i].value);
          if e.Err? {
            return Err(e.error);
          }
          entry := e.value;
        }
        assert f(mains[i]) == Ok(entry);
        subObjects := subObjects + [entry];
        i := i + 1;
      }
      assert mains[i..] == [];
      assert subObjects + [] == subObjects;
      return Ok(subObjects);
    }
  }

  /** `SubEntry` of an object, as a function value. */
  function EntryOf(x: NestedPhysicsObject): (f: Option<Obj> -> Result<Entry>)
    ensures forall m :: f(m) == x.SubEntry(m)
  {
    m => x.SubEntry(m)
  }

  /** `from_name`: spaces removed, the pattern must match, and the name read is kept. */
  function FromName(name: string, api: CollectiveApi): (r: Result<NestedPhysicsObject>)
    ensures Match(RemoveSpaces(name)).None? ==> r == Err(ValueError)
    ensures r.Ok? ==> r.value.givenName == Some(RemoveSpaces(name)) && r.value.Name() == RemoveSpaces(name)
    ensures r.Ok? ==> (r.value.main.SinglePart? <==> Single.IsSingle(Some(Match(RemoveSpaces(name)).value.0)))
    ensures r.Ok? ==> (r.value.sub.SinglePart? <==> Single.IsSingle(Some(Match(RemoveSpaces(name)).value.1)))
  {
    var s := RemoveSpaces(name);
    var m := Match(s);
    if m.None? then Err(ValueError)
    else
      var main :- PartFromName(m.value.0, api);
      var sub :- PartFromName(m.value.1, api);
      Ok(NestedPhysicsObject(main, sub, Some(s)))
  }

  /** One half of a configuration: `config[key]["class_name"]` picks the class whose `from_config` reads it. */
  function PartFromConfig(c: Configs.Config, key: string, api: CollectiveApi): (r: Result<Part>)
    ensures key !in c ==> r == Err(KeyError)
  {
    var v :- Lookup(c, key);
    match v
    case Dict(m) =>
      var className :- Lookup(m, "class_name");
      if className == Str("SinglePhysicsObject") then
        var s :- Single.FromConfig(m);
        Ok(SinglePart(s))
      else if className == Str("CollectivePhysicsObject") then
        var col :- api.fromConfig(m);
        Ok(CollectivePart(col))
      else if className.Str? then Err(AttributeError)
      else Err(TypeError)
    case _ => Err(TypeError)
  }

  /** `from_config`: the class name must be `NestedPhysicsObject`; the name is not restored. */
  function FromConfig(c: Configs.Config, api: CollectiveApi): (r: Result<NestedPhysicsObject>)
    ensures GetOrNone(c, "class_name") != Str("NestedPhysicsObject") ==> r == Err(ValueError)
    ensures r.Ok? ==> r.value.givenName.None?
  {
    if GetOrNone(c, "class_name") != Str("NestedPhysicsObject") then Err(ValueError)
    else
      var main :- PartFromConfig(c, "main_config", api);
      var sub :- PartFromConfig(c, "sub_config", api);
      Ok(NestedPhysicsObject(main, sub, None))
  }

  // ---------------------------------------------------------------------------
  // Properties

  /** A half that matches the single pattern is always read successfully as one. */
  lemma SingleHalfReads(g: string, api: CollectiveApi)
    requires Segment(g) && Single.IsSingle(Some(g))
    ensures PartFromName(g, api).Ok?
  {
    SegmentHasNoPeriod(g);
    assert RemoveSpaces(g) == g by {
      assert forall i :: 0 <= i < |g| ==> g[i] != ' ';
    }
  }

  /** `read` gives exactly one entry per main object, and a None main gives None or `[None]`. */
  lemma ReadOnePerMain(x: NestedPhysicsObject, event: Event, api: CollectiveApi)
    requires x.ReadSpec(event, api).Ok?
    ensures x.main.ReadAsList(event, api).Ok?
    ensures var mains := x.main.ReadAsList(event, api).value;
      var entries := x.ReadSpec(event, api).value;
      && |entries| == |mains|
      && forall i :: 0 <= i < |mains| && mains[i].None? ==>
           entries[i] == if x.sub.SinglePart? then One(None) else Many([None])
  {
    var mains := x.main.ReadAsList(event, api).value;
    var entries := x.ReadSpec(event, api).value;
    forall i | 0 <= i < |mains| && mains[i].None?
      ensures entries[i] == if x.sub.SinglePart? then One(None) else Many([None])
    {
      assert x.SubEntry(mains[i]) == Ok(entries[i]);
    }
  }

  /** For a single sub, a real main gives the leaf at the index, or None past the end. */
  lemma SingleSubEntry(x: NestedPhysicsObject, o: Obj)
    requires x.sub.SinglePart? && x.sub.TypeName() in o.attrs
    requires x.sub.single.index >= 0
    ensures var leaves := o.attrs[x.sub.TypeName()];
      x.SubEntry(Some(o)) == Ok(One(if x.sub.single.index < |leaves| then Some(leaves[x.sub.single.index]) else None))
  {
  }

  /**
   * For a collective sub, a real main gives the selection `start:end` of its leaves
   * (start 0 when omitted), None-padded to `end - start` entries when `end` is given.
   */
  lemma CollectiveSubEntry(x: NestedPhysicsObject, o: Obj)
    requires x.sub.CollectivePart? && x.sub.TypeName() in o.attrs
    ensures var c := x.sub.collective;
      x.SubEntry(Some(o)) == Ok(Many(Select(o.attrs[x.sub.TypeName()], c.start.GetOr(0), c.end)))
  {
    var c := x.sub.collective;
    var leaves := o.attrs[x.sub.TypeName()];
    if c.start.None? && c.end.None? {
      assert Slice(leaves, 0, None) == leaves;
    }
  }

  /** What `from_config` needs of the collective class: it recognises and restores its own configuration. */
  predicate RestoresItself(p: Part, api: CollectiveApi) {
    p.CollectivePart? ==>
      && GetOrNone(p.collective.config, "class_name") == Str("CollectivePhysicsObject")
      && api.fromConfig(p.collective.config) == Ok(p.collective)
  }

  lemma PartFromConfigOfConfig(c: Configs.Config, key: string, p: Part, api: CollectiveApi)
    requires key in c && c[key] == Dict(p.Config()) && RestoresItself(p, api)
    ensures PartFromConfig(c, key, api) == Ok(p)
  {
    if p.SinglePart? {
      Single.FromConfigOfConfig(p.single);
    }
  }

  /** Reading back a configuration restores both halves (but not a name read from text). */
  lemma FromConfigOfConfig(x: NestedPhysicsObject, api: CollectiveApi)
    requires RestoresItself(x.main, api) && RestoresItself(x.sub, api)
    ensures FromConfig(x.Config(), api) == Ok(x.(givenName := None))
  {
    PartFromConfigOfConfig(x.Config(), "main_config", x.main, api);
    PartFromConfigOfConfig(x.Config(), "sub_config", x.sub, api);
  }
}
