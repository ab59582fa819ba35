/**
 * `Multiple` (hml/physics_objects/multiple.py): several physics objects written
 * together, separated by commas, as in `Jet0,Jet1` or `Jet:,Electron:`. Each
 * component is a single, a collective or a nested physics object.
 *
 * multiple.py imports `Single`, `is_single`, `Nested` and `is_nested` from files
 * that do not define them; they are the parameters `S`, `N` and `Apis` below.
 */
module Multiple {
  import opened Wrappers
  import opened Strings
  import opened Events
  import opened Configs
  import Collective
  import Nested

  /** What multiple.py uses of one kind of physics object whose class is not shown. */
  datatype KindApi<!T, O> = KindApi(
    recognises: string -> bool,
    fromId: string -> Result<T>,
    id: T -> string,
    config: T -> Configs.Config,
    fromConfig: Configs.Config -> Result<T>,
    read: (T, Event) -> Result<O>)

  /** The single kind (whose objects are a list of zero or one entries) and the nested kind. */
  datatype Apis<!S, !N> = Apis(single: KindApi<S, seq<Obj>>, nested: KindApi<N, seq<Nested.Entry>>)

  datatype Component<S, N> = SingleC(s: S) | CollectiveC(c: Collective.Collective) | NestedC(n: N)

  /** The `objects` a component holds after it read an event. */
  datatype Fetched = SingleObjects(objs: seq<Obj>) | CollectiveObjects(slots: seq<Option<Obj>>) | NestedObjects(entries: seq<Nested.Entry>)

  /** The kind names `is_multiple` accepts, lower-cased. */
  const Kinds: seq<string> := ["single", "collective", "nested"]

  function KindOf<S, N>(c: Component<S, N>): (k: string)
    ensures k in Kinds
  {
    match c
    case SingleC(_) => "single"
    case CollectiveC(_) => "collective"
    case NestedC(_) => "nested"
  }

  function ComponentId<S, N>(c: Component<S, N>, apis: Apis<S, N>): string {
    match c
    case SingleC(s) => apis.single.id(s)
    case CollectiveC(col) => col.Id()
    case NestedC(n) => apis.nested.id(n)
  }

  function ComponentIds<S, N>(all: seq<Component<S, N>>, apis: Apis<S, N>): (ids: seq<string>)
    ensures |ids| == |all| && forall i :: 0 <= i < |all| ==> ids[i] == ComponentId(all[i], apis)
  {
    seq(|all|, i requires 0 <= i < |all| => ComponentId(all[i], apis))
  }

  /** `id`: the components' identifiers joined by commas. */
  function Id<S, N>(all: seq<Component<S, N>>, apis: Apis<S, N>): string {
    Join(ComponentIds(all, apis), ",")
  }

  /** One piece of an identifier: single first, then collective, then nested, else ValueError. */
  function Classify<S, N>(piece: string, apis: Apis<S, N>): (r: Result<Component<S, N>>)
    ensures apis.single.recognises(piece) ==> r.Ok? ==> r.value.SingleC?
    ensures !apis.single.recognises(piece) && Collective.IsCollective(piece) ==>
      r == Ok(CollectiveC(Collective.FromId(piece).value))
    ensures !apis.single.recognises(piece) && !Collective.IsCollective(piece) && !apis.nested.recognises(piece) ==>
      r == Err(ValueError)
  {
    if apis.single.recognises(piece) then
      var s :- apis.single.fromId(piece);
      Ok(SingleC(s))
    else if Collective.IsCollective(piece) then
      Ok(CollectiveC(Collective.FromId(piece).value))
    else if apis.nested.recognises(piece) then
      var n :- apis.nested.fromId(piece);
      Ok(NestedC(n))
    else Err(ValueError)
  }

  /** `Classify` as a function value. */
  function ClassifyWith<S, N>(apis: Apis<S, N>): (f: string -> Result<Component<S, N>>)
    ensures forall piece :: f(piece) == Classify(piece, apis)
  {
    piece => Classify(piece, apis)
  }

  /** What `from_id` gives: ValueError without a comma, else one component per comma-separated piece. */
  function FromIdSpec<S, N>(id: string, apis: Apis<S, N>): (r: Result<seq<Component<S, N>>>)
    ensures ',' !in id ==> r == Err(ValueError)
    ensures r.Ok? ==> |r.value| == |SplitOn(id, ",")| >= 2
    ensures r.Ok? ==> forall i :: 0 <= i < |r.value| ==> Classify(SplitOn(id, ",")[i], apis) == Ok(r.value[i])
    ensures ',' in id && r.Err? ==> exists i :: 0 <= i < |SplitOn(id, ",")| && Classify(SplitOn(id, ",")[i], apis) == Err(r.error)
  {
    if ',' !in id then Err(ValueError)
    else
      ContainsCharIn(id, ',');
      MapResult(ClassifyWith(apis), SplitOn(id, ","))
  }

  /** `from_id`: classifies the pieces one by one, stopping at the first that fails. */
  method FromId<S, N>(id: string, apis: Apis<S, N>) returns (r: Result<seq<Component<S, N>>>)
    ensures r == FromIdSpec(id, apis)
  {
    if ',' !in id {
      return Err(ValueError);
    }
    var pieces := SplitOn(id, ",");
    var f := ClassifyWith(apis);
    var objects: seq<Component<S, N>> := [];
    var i := 0;
    assert pieces[i..] == pieces;
    PrependNothing(MapResult(f, pieces));
    while i < |pieces|
      invariant 0 <= i <= |pieces|
      invariant MapResult(f, pieces) == Prepend(objects, MapResult(f, pieces[i..]))
    {
      MapResultStep(f, pieces, i, objects);
      var c := Classify(pieces[i], apis);
      if c.Err? {
        return Err(c.error);
      }
      objects := objects + [c.value];
      i := i + 1;
    }
    assert pieces[i..] == [];
    assert objects + [] == objects;
    return Ok(objects);
  }

  /** The type names lower-cased, in order. */
  function Lowered(names: seq<string>): (r: seq<string>)
    ensures |r| == |names| && forall i :: 0 <= i < |names| ==> r[i] == Lower(names[i])
  {
    seq(|names|, i requires 0 <= i < |names| => Lower(names[i]))
  }

  /**
   * What `is_multiple` gives: false when the identifier does not parse, true when no
   * types are given, ValueError for a type other than single, collective or nested
   * (in any case), otherwise whether every component is of a given type.
   */
  function IsMultipleSpec<S, N>(id: string, supported: Option<seq<string>>, apis: Apis<S, N>): (r: Result<bool>)
    ensures FromIdSpec(id, apis).Err? ==> r == Ok(false)
    ensures FromIdSpec(id, apis).Ok? && supported.None? ==> r == Ok(true)
    ensures r.Err? ==> r.error == ValueError
  {
    var parsed := FromIdSpec(id, apis);
    if parsed.Err? then Ok(false)
    else if supported.None? then Ok(true)
    else
      var classes := Lowered(supported.value);
      if !AllKnown(classes) then Err(ValueError)
      else Ok(AllOfKinds(parsed.value, classes))
  }

  predicate AllKnown(classes: seq<string>) {
    forall k :: 0 <= k < |classes| ==> classes[k] in Kinds
  }

  predicate AllOfKinds<S, N>(all: seq<Component<S, N>>, classes: seq<string>) {
    forall j :: 0 <= j < |all| ==> KindOf(all[j]) in classes
  }

  /** `is_multiple` on an identifier. */
  method IsMultiple<S, N>(id: string, supported: Option<seq<string>>, apis: Apis<S, N>) returns (r: Result<bool>)
    ensures r == IsMultipleSpec(id, supported, apis)
  {
    var parsed := FromId(id, apis);
    if parsed.Err? {
      return Ok(false);
    }
    if supported.None? {
      return Ok(true);
    }
    var classes := SupportedClasses(supported.value);
    if classes.Err? {
      return Err(ValueError);
    }
    var b := AllSupported(parsed.value, classes.value);
    return Ok(b);
  }

  /** The first loop of `is_multiple`: every type name lower-cased, or ValueError at the first unknown one. */
  method SupportedClasses(names: seq<string>) returns (r: Result<seq<string>>)
    ensures r.Ok? <==> AllKnown(Lowered(names))
    ensures r.Ok? ==> r.value == Lowered(names)
  {
    var classes: seq<string> := [];
    var i := 0;
    while i < |names|
      invariant 0 <= i <= |names| && |classes| == i
      invariant forall k :: 0 <= k < i ==> classes[k] == Lower(names[k]) && classes[k] in Kinds
    {
      var lowered := Lower(names[i]);
      if lowered !in Kinds {
        assert Lowered(names)[i] !in Kinds;
        return Err(ValueError);
      }
      classes := classes + [lowered];
      i := i + 1;
    }
    assert classes == Lowered(names);
    return Ok(classes);
  }

  /** The second loop of `is_multiple`: whether the kind of every component is among `classes`. */
  method AllSupported<S, N>(all: seq<Component<S, N>>, classes: seq<string>) returns (b: bool)
    ensures b == AllOfKinds(all, classes)
  {
    var j := 0;
    while j < |all|
      invariant 0 <= j <= |all|
      invariant forall k :: 0 <= k < j ==> KindOf(all[k]) in classes
    {
      if KindOf(all[j]) !in classes {
        return false;
      }
      j := j + 1;
    }
    return true;
  }

  /** What a component's `read_ttree(...).objects` gives. */
  function ReadComponent<S, N>(c: Component<S, N>, ttree: Event, apis: Apis<S, N>): Result<Fetched> {
    match c
    case SingleC(s) =>
      var objs :- apis.single.read(s, ttree);
      Ok(SingleObjects(objs))
    case CollectiveC(col) => Ok(CollectiveObjects(col.Fetch(ttree)))
    case NestedC(n) =>
      var entries :- apis.nested.read(n, ttree);
      Ok(NestedObjects(entries))
  }

  function ReadWith<S, N>(ttree: Event, apis: Apis<S, N>): Component<S, N> -> Result<Fetched> {
    c => ReadComponent(c, ttree, apis)
  }

  /** A multiple physics object with the `objects` its last read filled in. */
  class MultiplePhysicsObject<S, N> {
    const all: seq<Component<S, N>>
    const apis: Apis<S, N>
    var objects: seq<Fetched>

    constructor(all: seq<Component<S, N>>, apis: Apis<S, N>)
      ensures this.all == all && this.apis == apis && objects == []
    {
      this.all := all;
      this.apis := apis;
      objects := [];
    }

    /**
     * `read_ttree`: `objects` becomes one entry per component, in order; when a
     * component fails to read, the error propagates and `objects` is left as it was.
     */
    method ReadTtree(ttree: Event) returns (r: Outcome)
      modifies this
      ensures var fetched := MapResult(ReadWith(ttree, apis), all);
        && (fetched.Ok? ==> r == Pass && objects == fetched.value)
        && (fetched.Err? ==> r == Fail(fetched.error) && objects == old(objects))
    {
      var fetched := ReadAll(all, ttree, apis);
      if fetched.Err? {
        return Fail(fetched.error);
      }
      objects := fetched.value;
      return Pass;
    }
  }

  /** The list comprehension of `read_ttree`: each component read in order, up to the first failure. */
  method ReadAll<S, N>(all: seq<Component<S, N>>, ttree: Event, apis: Apis<S, N>) returns (r: Result<seq<Fetched>>)
    ensures r == MapResult(ReadWith(ttree, apis), all)
  {
    var f := ReadWith(ttree, apis);
    var fetched: seq<Fetched> := [];
    var i := 0;
    assert all[i..] == all;
    PrependNothing(MapResult(f, all));
    while i < |all|
      invariant 0 <= i <= |all|
      invariant MapResult(f, all) == Prepend(fetched, MapResult(f, all[i..]))
    {
      MapResultStep(f, all, i, fetched);
      var o := ReadComponent(all[i], ttree, apis);
      if o.Err? {
        return Err(o.error);
      }
      fetched := fetched + [o.value];
      i := i + 1;
    }
    assert all[i..] == [];
    assert fetched + [] == fetched;
    return Ok(fetched);
  }

  function ComponentConfig<S, N>(c: Component<S, N>, apis: Apis<S, N>): Configs.Config {
    match c
    case SingleC(s) => apis.single.config(s)
    case CollectiveC(col) => col.Config()
    case NestedC(n) => apis.nested.config(n)
  }

  /** `config`: the classname and the components' configurations in order. */
  function Config<S, N>(all: seq<Component<S, N>>, apis: Apis<S, N>): (c: Configs.Config)
    ensures c.Keys == {"classname", "all_configs"}
    ensures c["all_configs"].List? && |c["all_configs"].items| == |all|
    ensures forall i :: 0 <= i < |all| ==> c["all_configs"].items[i] == Dict(ComponentConfig(all[i], apis))
  {
    map["classname" := Str("Multiple"),
        "all_configs" := List(seq(|all|, i requires 0 <= i < |all| => Dict(ComponentConfig(all[i], apis))))]
  }

  /**
   * One item of `all_configs`: its classname picks Single, Collective or Nested and
   * anything else is a ValueError; an item that is not a dictionary has no `get`.
   */
  function ComponentFromConfig<S, N>(item: Value, apis: Apis<S, N>): (r: Result<Component<S, N>>)
    ensures !item.Dict? ==> r == Err(AttributeError)
    ensures item.Dict? && GetOrNone(item.entries, "classname") !in {Str("Single"), Str("Collective"), Str("Nested")} ==>
      r == Err(ValueError)
  {
    match item
    case Dict(m) =>
      var classname := GetOrNone(m, "classname");
      if classname == Str("Single") then
        var s :- apis.single.fromConfig(m);
        Ok(SingleC(s))
      else if classname == Str("Collective") then
        var c :- Collective.FromConfig(m);
        Ok(CollectiveC(c))
      else if classname == Str("Nested") then
        var n :- apis.nested.fromConfig(m);
        Ok(NestedC(n))
      else Err(ValueError)
    case _ => Err(AttributeError)
  }

  /**
   * `from_config`: the classname must be `Multiple`. `all_configs` is iterated: a list
   * gives its items, a string its characters and a dictionary its keys (which have no
   * `get` either), and None or a number cannot be iterated.
   */
  function FromConfig<S, N>(c: Configs.Config, apis: Apis<S, N>): (r: Result<seq<Component<S, N>>>)
    ensures GetOrNone(c, "classname") != Str("Multiple") ==> r == Err(ValueError)
    ensures GetOrNone(c, "classname") == Str("Multiple") && GetOrNone(c, "all_configs") in {NoneValue} ==> r == Err(TypeError)
    ensures r.Ok? && GetOrNone(c, "all_configs").List? ==> |r.value| == |GetOrNone(c, "all_configs").items|
  {
    if GetOrNone(c, "classname") != Str("Multiple") then Err(ValueError)
    else
      match GetOrNone(c, "all_configs")
      case List(items) => MapResult(item => ComponentFromConfig(item, apis), items)
      case Str(t) => if t == "" then Ok([]) else Err(AttributeError)
      case Dict(m) => if |m| == 0 then Ok([]) else Err(AttributeError)
      case _ => Err(TypeError)
  }

  // ---------------------------------------------------------------------------
  // Properties

  /**
   * The pieces of `id` are the components' identifiers one to one, when there are at
   * least two components and no component identifier holds a comma.
   */
  lemma IdPieces<S, N>(all: seq<Component<S, N>>, apis: Apis<S, N>)
    requires |all| >= 2
    requires forall i :: 0 <= i < |all| ==> ',' !in ComponentId(all[i], apis)
    ensures ',' in Id(all, apis)
    ensures SplitOn(Id(all, apis), ",") == ComponentIds(all, apis)
  {
    var ids := ComponentIds(all, apis);
    SplitOnJoin(ids, ',');
    SplitOnCharPieces(Id(all, apis), ',');
    ContainsCharIn(Id(all, apis), ',');
  }

  /**
   * Reading back the identifier restores the components, when there are at least two,
   * none of their identifiers holds a comma, and each identifier is classified back
   * as its own component.
   */
  lemma FromIdOfId<S, N>(all: seq<Component<S, N>>, apis: Apis<S, N>)
    requires |all| >= 2
    requires forall i :: 0 <= i < |all| ==>
      ',' !in ComponentId(all[i], apis) && Classify(ComponentId(all[i], apis), apis) == Ok(all[i])
    ensures FromIdSpec(Id(all, apis), apis) == Ok(all)
  {
    IdPieces(all, apis);
    var pieces := SplitOn(Id(all, apis), ",");
    MapResultAll(ClassifyWith(apis), pieces, all);
  }

  /** A collective identifier that the single recogniser rejects is classified as that collective. */
  lemma ClassifyCollective<S, N>(c: Collective.Collective, apis: Apis<S, N>)
    requires NoDigits(c.field) && ':' !in c.field && ',' !in c.field && '.' !in c.field && c.start >= 0
    requires !apis.single.recognises(c.Id())
    ensures ',' !in ComponentId(CollectiveC(c), apis)
    ensures Classify(ComponentId(CollectiveC(c), apis), apis) == Ok(CollectiveC(c))
  {
    Collective.FromIdOfId(c);
  }

  /** Whether a kind reads back the configuration of each of its objects. */
  predicate ConfigRoundTrips<S(==), N(==)>(c: Component<S, N>, apis: Apis<S, N>) {
    match c
    case SingleC(s) =>
      GetOrNone(apis.single.config(s), "classname") == Str("Single") && apis.single.fromConfig(apis.single.config(s)) == Ok(s)
    case CollectiveC(_) => true
    case NestedC(n) =>
      GetOrNone(apis.nested.config(n), "classname") == Str("Nested") && apis.nested.fromConfig(apis.nested.config(n)) == Ok(n)
  }

  /** Reading back the configuration restores the components, given that every kind restores its own. */
  lemma FromConfigOfConfig<S, N>(all: seq<Component<S, N>>, apis: Apis<S, N>)
    requires forall i :: 0 <= i < |all| ==> ConfigRoundTrips(all[i], apis)
    ensures FromConfig(Config(all, apis), apis) == Ok(all)
  {
    var items := Config(all, apis)["all_configs"].items;
    forall i | 0 <= i < |all|
      ensures ComponentFromConfig(items[i], apis) == Ok(all[i])
    {
      if all[i].CollectiveC? {
        Collective.FromConfigOfConfig(all[i].c);
      }
    }
    MapResultAll(item => ComponentFromConfig(item, apis), items, all);
  }

  // The examples of `is_multiple`'s documentation, for a single recogniser that
  // accepts `Jet0` and `Jet1` and reads both.

  /** What the examples assume of the single kind. */
  predicate ReadsJets<S, N>(apis: Apis<S, N>) {
    && apis.single.recognises("Jet0") && apis.single.fromId("Jet0").Ok?
    && apis.single.recognises("Jet1") && apis.single.fromId("Jet1").Ok?
  }

  lemma TwoJetsPieces()
    ensures SplitOn("Jet0,Jet1", ",") == ["Jet0", "Jet1"]
  {
    assert Join(["Jet0", "Jet1"], ",") == "Jet0,Jet1";
    SplitOnJoin(["Jet0", "Jet1"], ',');
  }

  /** Two recognised singles joined by a comma parse into those two singles. */
  lemma TwoSinglesParse<S, N>(a: string, b: string, apis: Apis<S, N>)
    requires ',' !in a && ',' !in b
    requires apis.single.recognises(a) && apis.single.fromId(a).Ok?
    requires apis.single.recognises(b) && apis.single.fromId(b).Ok?
    ensures FromIdSpec(a + "," + b, apis) == Ok([SingleC(apis.single.fromId(a).value), SingleC(apis.single.fromId(b).value)])
  {
    var id := a + "," + b;
    assert Join([a, b], ",") == id;
    SplitOnJoin([a, b], ',');
    assert id[|a|] == ',';
    var ys := [SingleC(apis.single.fromId(a).value), SingleC(apis.single.fromId(b).value)];
    assert Classify(a, apis) == Ok(ys[0]);
    assert Classify(b, apis) == Ok(ys[1]);
    MapResultAll(ClassifyWith(apis), [a, b], ys);
  }

  lemma TwoJetsParse<S, N>(apis: Apis<S, N>)
    requires ReadsJets(apis)
    ensures FromIdSpec("Jet0,Jet1", apis) ==
      Ok([SingleC(apis.single.fromId("Jet0").value), SingleC(apis.single.fromId("Jet1").value)])
  {
    var a, b := "Jet0", "Jet1";
    JetsJoined(a, b);
    TwoSinglesParse(a, b, apis);
  }

  lemma JetsJoined(a: string, b: string)
    requires a == "Jet0" && b == "Jet1"
    ensures ',' !in a && ',' !in b && a + "," + b == "Jet0,Jet1"
  {
  }

  /** For an identifier that parses into singles only, one kind is supported exactly when it is `single`. */
  lemma IsMultipleOfSingles<S, N>(id: string, k: string, apis: Apis<S, N>)
    requires FromIdSpec(id, apis).Ok? && |FromIdSpec(id, apis).value| > 0
    requires forall j :: 0 <= j < |FromIdSpec(id, apis).value| ==> FromIdSpec(id, apis).value[j].SingleC?
    requires k in Kinds
    ensures IsMultipleSpec(id, Some([k]), apis) == Ok(k == "single")
  {
    LoweredKind(k);
    var all := FromIdSpec(id, apis).value;
    assert KindOf(all[0]) == "single";
    if k == "single" {
      assert forall j :: 0 <= j < |all| ==> KindOf(all[j]) in [k];
    }
  }

  lemma IsMultipleTwoJets<S, N>(apis: Apis<S, N>)
    requires ReadsJets(apis)
    ensures IsMultipleSpec("Jet0,Jet1", None, apis) == Ok(true)
  {
    TwoJetsParse(apis);
  }

  lemma IsMultipleTwoSingles<S, N>(apis: Apis<S, N>)
    requires ReadsJets(apis)
    ensures IsMultipleSpec("Jet0,Jet1", Some(["single"]), apis) == Ok(true)
  {
    TwoJetsParse(apis);
    IsMultipleOfSingles("Jet0,Jet1", "single", apis);
  }

  lemma IsMultipleNotCollective<S, N>(apis: Apis<S, N>)
    requires ReadsJets(apis)
    ensures IsMultipleSpec("Jet0,Jet1", Some(["collective"]), apis) == Ok(false)
  {
    TwoJetsParse(apis);
    IsMultipleOfSingles("Jet0,Jet1", "collective", apis);
  }

  /** A kind name is its own lower-case form. */
  lemma LoweredKind(k: string)
    requires k in Kinds
    ensures Lowered([k]) == [k] && AllKnown([k])
  {
    assert forall i :: 0 <= i < |k| ==> 'a' <= k[i] <= 'z';
    LowerOfNoUpper(k);
    assert Lowered([k])[0] == k;
  }

  /** An identifier without a comma, such as `Jet0`, `Jet:` or `Jet0.Constituents:`, is not multiple. */
  lemma IsMultipleNeedsComma<S, N>(id: string, supported: Option<seq<string>>, apis: Apis<S, N>)
    requires ',' !in id
    ensures IsMultipleSpec(id, supported, apis) == Ok(false)
  {
  }

  /** An unknown type name is a ValueError, for every identifier that parses. */
  lemma IsMultipleUnknownType<S, N>(id: string, names: seq<string>, k: nat, apis: Apis<S, N>)
    requires FromIdSpec(id, apis).Ok? && k < |names| && Lower(names[k]) !in Kinds
    ensures IsMultipleSpec(id, Some(names), apis) == Err(ValueError)
  {
    assert Lowered(names)[k] !in Kinds;
    assert !AllKnown(Lowered(names));
  }
}
