/**
 * `SinglePhysicsObject` (hml/physics_objects/single.py): one object of a branch,
 * written as the branch name followed by the index, as in `Jet0`.
 */
module Single {
  import opened Wrappers
  import opened Strings
  import opened Events
  import opened Configs

  /**
   * The match of `^([A-Za-z]+)(\d+)$`: the two groups, letters then digits.
   * `$` also matches before a final newline, which is then in neither group.
   */
  function Match(s: string): (r: Option<(string, string)>)
    ensures r.Some? ==> |r.value.0| > 0 && AllLetters(r.value.0)
    ensures r.Some? ==> |r.value.1| > 0 && AllDigits(r.value.1)
    ensures r.Some? ==> DollarBody(s) == r.value.0 + r.value.1
  {
    var b := DollarBody(s);
    var n := LetterRun(b);
    if 0 < n < |b| && AllDigits(b[n..]) then
      assert b == b[..n] + b[n..];
      Some((b[..n], b[n..]))
    else None
  }

  /** The pattern matches exactly when the text is one or more letters followed by one or more digits. */
  lemma MatchIff(s: string)
    ensures Match(s).Some? <==>
      exists k :: 0 < k < |DollarBody(s)| && AllLetters(DollarBody(s)[..k]) && AllDigits(DollarBody(s)[k..])
  {
    var b := DollarBody(s);
    if exists k :: 0 < k < |b| && AllLetters(b[..k]) && AllDigits(b[k..]) {
      var k :| 0 < k < |b| && AllLetters(b[..k]) && AllDigits(b[k..]);
      assert b == b[..k] + b[k..];
      LetterRunOfLetters(b[..k], b[k..]);
    }
  }

  /** Letters followed by digits match, with those two groups. */
  lemma MatchOf(letters: string, digits: string)
    requires |letters| > 0 && AllLetters(letters) && |digits| > 0 && AllDigits(digits)
    ensures Match(letters + digits) == Some((letters, digits))
  {
    var s := letters + digits;
    assert '\n' !in s by {
      forall i | 0 <= i < |s| ensures s[i] != '\n' {
        if i < |letters| { assert IsLetter(s[i]); } else { assert IsDigit(digits[i - |letters|]); }
      }
    }
    LetterRunOfLetters(letters, digits);
    assert s[..|letters|] == letters && s[|letters|..] == digits;
  }

  /** `is_single_physics_object` on a string or None. */
  function IsSingle(identifier: Option<string>): (r: bool)
    ensures identifier == None || identifier == Some("") ==> !r
    ensures identifier.Some? ==> (r <==> Match(identifier.value).Some?)
  {
    match identifier
    case None => false
    case Some(s) => s != "" && Match(s).Some?
  }

  datatype SinglePhysicsObject = SinglePhysicsObject(typeName: string, index: int) {
    /** `name`: the type followed by the index. */
    function Name(): (s: string)
      ensures index >= 0 ==> s == typeName + NatToString(index)
    {
      typeName + IntToString(index)
    }

    function Config(): (c: Configs.Config)
      ensures c.Keys == {"class_name", "type", "index"}
    {
      map["class_name" := Str("SinglePhysicsObject"), "type" := Str(typeName), "index" := Int(index)]
    }

    /**
     * `read`: ValueError when the event has no branch of that name, None when the
     * index is at or past the number of entries, otherwise the entry at the index
     * (a negative index counts from the end, as for a Python list).
     */
    function Read(event: Event): (r: Result<Option<Obj>>)
      ensures typeName !in event.branches ==> r == Err(ValueError)
      ensures typeName in event.branches && 0 <= index < |event.branches[typeName]| ==>
        r == Ok(Some(event.branches[typeName][index]))
      ensures r == Ok(None) <==> typeName in event.branches && index >= |event.branches[typeName]|
    {
      if typeName !in event.branches then Err(ValueError)
      else
        var entries := event.branches[typeName];
        if index >= |entries| then Ok(None)
        else if index >= 0 then Ok(Some(entries[index]))
        else if index >= -|entries| then Ok(Some(entries[|entries| + index]))
        else Err(IndexError)
    }
  }

  /** `from_name`: spaces are removed, then the name must match the pattern. */
  function FromName(name: string): (r: Result<SinglePhysicsObject>)
    ensures r.Ok? <==> Match(RemoveSpaces(name)).Some?
    ensures r.Err? ==> r.error == ValueError
    ensures r.Ok? ==> |r.value.typeName| > 0 && AllLetters(r.value.typeName) && r.value.index >= 0
  {
    match Match(RemoveSpaces(name))
    case None => Err(ValueError)
    case Some((letters, digits)) => Ok(SinglePhysicsObject(letters, DigitsValue(digits)))
  }

  /** `from_config`: the class name must be `SinglePhysicsObject`. */
  function FromConfig(c: Configs.Config): (r: Result<SinglePhysicsObject>)
    ensures GetOrNone(c, "class_name") != Str("SinglePhysicsObject") ==> r == Err(ValueError)
  {
    if GetOrNone(c, "class_name") != Str("SinglePhysicsObject") then Err(ValueError)
    else
      var typeName :- LookupStr(c, "type");
      var index :- LookupInt(c, "index");
      Ok(SinglePhysicsObject(typeName, index))
  }

  /** Reading back the name of an object with a letters-only type and a non-negative index restores it. */
  lemma FromNameOfName(o: SinglePhysicsObject)
    requires |o.typeName| > 0 && AllLetters(o.typeName) && o.index >= 0
    ensures FromName(o.Name()) == Ok(o)
  {
    var s := o.Name();
    var d := NatToString(o.index);
    assert NoSpaces(s) && '\n' !in s by {
      forall i | 0 <= i < |s| ensures !IsSpace(s[i]) && s[i] != '\n' {
        if i < |o.typeName| { assert IsLetter(s[i]); } else { assert IsDigit(d[i - |o.typeName|]); }
      }
    }
    assert RemoveSpaces(s) == s;
    LetterRunOfLetters(o.typeName, d);
    assert s[|o.typeName|..] == d;
    ValueOfNatToString(o.index);
  }

  /**
   * Printing what was read back from a name restores the name, for a name that is
   * exactly letters followed by digits without a leading zero.
   */
  lemma NameOfFromName(letters: string, digits: string)
    requires |letters| > 0 && AllLetters(letters) && Canonical(digits)
    ensures FromName(letters + digits).Ok?
    ensures FromName(letters + digits).value.Name() == letters + digits
  {
    var s := letters + digits;
    assert NoSpaces(s) && '\n' !in s by {
      forall i | 0 <= i < |s| ensures !IsSpace(s[i]) && s[i] != '\n' {
        if i < |letters| { assert IsLetter(s[i]); } else { assert IsDigit(digits[i - |letters|]); }
      }
    }
    assert RemoveSpaces(s) == s;
    LetterRunOfLetters(letters, digits);
    assert s[|letters|..] == digits;
    NatToStringOfValue(digits);
  }

  /** Spaces anywhere in a name make no difference. */
  lemma FromNameIgnoresSpaces(name: string)
    ensures FromName(name) == FromName(RemoveSpaces(name))
  {
  }

  lemma FromConfigOfConfig(o: SinglePhysicsObject)
    ensures FromConfig(o.Config()) == Ok(o)
  {
  }
}
