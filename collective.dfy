/**
 * `Collective` (hml/physics_objects/collective.py): a run of objects of one field,
 * `start` up to `stop` (exclusive), where a stop of -1 means "to the end".
 * Its identifier is the field name, the start, a colon and the stop, as in `Jet1:3`.
 */
module Collective {
  import opened Wrappers
  import opened Strings
  import opened Events
  import opened Configs

  /** Number of entries of a field of the tree; a field the tree lacks counts as none. */
  function EntryCount(ttree: Event, field: string): nat {
    if field in ttree.branches then |ttree.branches[field]| else 0
  }

  /**
   * `Single(field, i).read_ttree(ttree).objects`, which this file uses but does not
   * define: the list holding entry `i` of the field when there is one, else empty.
   */
  function SingleObjects(ttree: Event, field: string, i: int): (objs: seq<Obj>)
    ensures |objs| <= 1
  {
    if field in ttree.branches && 0 <= i < |ttree.branches[field]| then [ttree.branches[field][i]]
    else []
  }

  /** What one index contributes to `objects`: the single object read there, or `[None]`. */
  function Contribution(ttree: Event, field: string, i: int): (r: seq<Option<Obj>>)
    ensures |r| == 1
    ensures r[0] == if field in ttree.branches && 0 <= i < |ttree.branches[field]|
                    then Some(ttree.branches[field][i]) else None
  {
    var single := SingleObjects(ttree, field, i);
    if |single| != 0 then Present(single) else [None]
  }

  datatype Collective = Collective(field: string, start: int, stop: int) {

    /** The last index read (exclusive): the stop, or the entry count when the stop is -1. */
    function EffectiveStop(ttree: Event): int {
      if stop != -1 then stop else EntryCount(ttree, field)
    }

    /** The objects `read_ttree` leaves in `objects`, one slot per index of `range(start, stop)`. */
    function Fetch(ttree: Event): (objs: seq<Option<Obj>>)
      ensures stop != -1 ==> |objs| == Max(0, stop - start)
      ensures stop == -1 ==> |objs| == Max(0, EntryCount(ttree, field) - start)
      ensures forall k :: 0 <= k < |objs| ==>
        objs[k] == if field in ttree.branches && 0 <= start + k < |ttree.branches[field]|
                   then Some(ttree.branches[field][start + k]) else None
    {
      var objs := seq(Max(0, EffectiveStop(ttree) - start), k => Contribution(ttree, field, start + k)[0]);
      assert forall k :: 0 <= k < |objs| ==> objs[k] == Contribution(ttree, field, start + k)[0];
      objs
    }

    /** `id`: the canonical identifier. */
    function Id(): (s: string)
      ensures ':' in s
    {
      if start == 0 && stop == -1 then field + ":"
      else if start == 0 then field + ":" + IntToString(stop)
      else if stop == -1 then field + IntToString(start) + ":"
      else field + IntToString(start) + ":" + IntToString(stop)
    }

    function Config(): (c: Configs.Config)
      ensures c.Keys == {"classname", "field", "start", "stop"}
    {
      map["classname" := Str("Collective"), "field" := Str(field), "start" := Int(start), "stop" := Int(stop)]
    }
  }

  /** The constructor's defaults: from the first object to the end. */
  function All(field: string): (c: Collective)
    ensures c.Id() == field + ":"
  {
    Collective(field, 0, -1)
  }

  /**
   * `from_id`: ValueError without a colon, with a comma or a period, or with more
   * than one colon; the digits before the colon are the start (0 if there are none)
   * and the text after it is the stop (-1 if empty).
   */
  function FromId(id: string): (r: Result<Collective>)
    ensures ':' !in id || ',' in id || '.' in id ==> r == Err(ValueError)
    ensures r.Ok? ==> r.value.start >= 0
  {
    if ':' !in id then Err(ValueError)
    else if ',' in id then Err(ValueError)
    else if '.' in id then Err(ValueError)
    else
      var parts := SplitOn(id, ":");
      if |parts| != 2 then Err(ValueError)
      else FromHalves(parts[0], parts[1])
  }

  /** The second half of `from_id`, applied to the texts before and after the colon. */
  function FromHalves(first: string, second: string): (r: Result<Collective>)
    ensures r.Ok? ==> r.value.start >= 0
  {
    var (name, start) := NameAndStart(first);
    match StopOf(second)
    case None => Err(ValueError)
    case Some(stop) => Ok(Collective(name, start, stop))
  }

  /** The text before the colon: its digits are the start and the rest is the field name. */
  function NameAndStart(first: string): (r: (string, nat))
    ensures NoDigits(first) ==> r == (first, 0)
  {
    var digits := KeepDigits(first);
    if digits == "" then (first, 0) else (ReplaceAll(first, digits, ""), DigitsValue(digits))
  }

  /** The text after the colon: empty means -1, anything else goes through `int()`. */
  function StopOf(second: string): (r: Option<int>)
    ensures second == "" ==> r == Some(-1)
  {
    if second == "" then Some(-1) else PyInt(second)
  }

  /** `is_collective` on a string: whether `from_id` succeeds. */
  function IsCollective(id: string): (b: bool)
    ensures b ==> ':' in id && ',' !in id && '.' !in id
  {
    FromId(id).Ok?
  }

  /** `from_config`: `config["classname"]` must be `Collective`. */
  function FromConfig(c: Configs.Config): (r: Result<Collective>)
    ensures "classname" !in c ==> r == Err(KeyError)
    ensures "classname" in c && c["classname"] != Str("Collective") ==> r == Err(ValueError)
  {
    var classname :- Lookup(c, "classname");
    if classname != Str("Collective") then Err(ValueError)
    else
      var field :- LookupStr(c, "field");
      var start :- LookupInt(c, "start");
      var stop :- LookupInt(c, "stop");
      Ok(Collective(field, start, stop))
  }

  /** A collective physics object together with the `objects` its last read filled in. */
  class Reader {
    const desc: Collective
    var objects: seq<Option<Obj>>

    constructor(desc: Collective)
      ensures this.desc == desc && objects == []
    {
      this.desc := desc;
      objects := [];
    }

    /** `read_ttree`: clears `objects`, then appends one slot per index from start to stop. */
    method ReadTtree(ttree: Event)
      modifies this
      ensures objects == desc.Fetch(ttree)
    {
      objects := [];
      var n := EntryCount(ttree, desc.field);
      var stop := if desc.stop != -1 then desc.stop else n;
      var i := desc.start;
      ghost var want := desc.Fetch(ttree);
      while i < stop
        invariant desc.start <= i && (i <= stop || i == desc.start)
        invariant |objects| == i - desc.start
        invariant forall k :: 0 <= k < |objects| ==> objects[k] == want[k]
      {
        var single := SingleObjects(ttree, desc.field, i);
        objects := objects + (if |single| != 0 then Present(single) else [None]);
        i := i + 1;
      }
    }
  }

  /** More than one colon makes `from_id` fail when it unpacks the split. */
  lemma FromIdTwoColons(id: string, i: nat, j: nat)
    requires i < j < |id| && id[i] == ':' && id[j] == ':'
    ensures FromId(id) == Err(ValueError)
  {
    SplitOnTwice(id, ':', i, j);
  }

  lemma NumeralChars(i: int)
    ensures ':' !in IntToString(i) && ',' !in IntToString(i) && '.' !in IntToString(i)
  {
    var d := NatToString(if i < 0 then -i else i);
    assert forall k :: 0 <= k < |d| ==> IsDigit(d[k]);
  }

  /** With exactly one colon and no comma or period, `from_id` works on the two halves. */
  lemma FromIdOfHalves(first: string, second: string)
    requires ':' !in first && ':' !in second
    requires ',' !in first + second && '.' !in first + second
    ensures FromId(first + ":" + second) == FromHalves(first, second)
  {
    var id := first + ":" + second;
    assert id[|first|] == ':';
    assert Join([first, second], ":") == id;
    SplitOnJoin([first, second], ':');
  }

  /**
   * Reading back the identifier restores the object, for a field without digits,
   * colons, commas or periods, a non-negative start and any stop.
   */
  lemma FromIdOfId(c: Collective)
    requires NoDigits(c.field) && ':' !in c.field && ',' !in c.field && '.' !in c.field
    requires c.start >= 0
    ensures FromId(c.Id()) == Ok(c)
  {
    var startText := if c.start == 0 then "" else NatToString(c.start);
    var stopText := if c.stop == -1 then "" else IntToString(c.stop);
    assert c.Id() == c.field + startText + ":" + stopText;
    NumeralChars(c.start);
    NumeralChars(c.stop);
    FromIdOfHalves(c.field + startText, stopText);
    FromHalvesOfParts(c.field, c.start, c.stop);
  }

  lemma FromHalvesOfParts(field: string, start: nat, stop: int)
    requires NoDigits(field)
    ensures FromHalves(field + (if start == 0 then "" else NatToString(start)),
                       if stop == -1 then "" else IntToString(stop)) == Ok(Collective(field, start, stop))
  {
    NameAndStartOf(field, start);
    StopOfText(stop);
  }

  lemma NameAndStartOf(field: string, start: nat)
    requires NoDigits(field)
    ensures NameAndStart(field + (if start == 0 then "" else NatToString(start))) == (field, start)
  {
    if start == 0 {
      assert field + "" == field;
    } else {
      var startText := NatToString(start);
      assert field + (if start == 0 then "" else NatToString(start)) == field + startText;
      assert KeepDigits(field) == "";
      KeepDigitsAppend(field, startText);
      KeepDigitsOfDigits(startText);
      ReplaceDigitSuffix(field, startText);
      ValueOfNatToString(start);
      assert KeepDigits(field + startText) == startText;
      assert startText != "";
    }
  }

  lemma StopOfText(stop: int)
    ensures StopOf(if stop == -1 then "" else IntToString(stop)) == Some(stop)
  {
    if stop != -1 {
      PyIntOfIntToString(stop);
    }
  }

  /** A non-canonical identifier normalises: `Jet0:` reads as all jets, whose identifier is `Jet:`. */
  lemma ZeroStartNormalises()
    ensures FromId("Jet0:") == Ok(All("Jet"))
  {
    assert "Jet0:" == "Jet0" + ":" + "";
    FromIdOfHalves("Jet0", "");
    ZeroStartHalves();
  }

  lemma ZeroStartHalves()
    ensures FromHalves("Jet0", "") == Ok(All("Jet"))
  {
    assert NoDigits("Jet");
    assert "Jet0" == "Jet" + "0";
    ReplaceDigitSuffix("Jet", "0");
    KeepDigitsAppend("Jet", "0");
    assert KeepDigits("0") == "0";
    assert DigitsValue("0") == 0 by { assert "0"[..0] == ""; }
  }

  // The examples of `is_collective`'s documentation.

  lemma IsCollectiveAll(field: string)
    requires NoDigits(field) && ':' !in field && ',' !in field && '.' !in field
    ensures IsCollective(field + ":")
  {
    FromIdOfId(All(field));
  }

  lemma IsCollectiveNotSingle()
    ensures !IsCollective("Jet0")
  {
    assert "Jet0"[0] != ':' && "Jet0"[1] != ':' && "Jet0"[2] != ':' && "Jet0"[3] != ':';
  }

  lemma IsCollectiveNotNested()
    ensures !IsCollective("Jet0.Constituents:100")
  {
    assert "Jet0.Constituents:100"[4] == '.';
  }

  lemma IsCollectiveNotMultiple()
    ensures !IsCollective("Jet0,Jet1")
  {
    assert "Jet0,Jet1"[4] == ',';
  }

  lemma FromConfigOfConfig(c: Collective)
    ensures FromConfig(c.Config()) == Ok(c)
  {
  }
}
