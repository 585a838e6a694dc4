/** The keyboard (src/ts/keyboard.ts): a table from raw keys to named events, built from the
    names' key lists with duplicate detection, a set of keys currently held, and an event fired
    on the first keydown of a bound key. Fired events are recorded in a log, in order; the DOM
    listener registration and the per-name `listen` forwarding are not modelled. */
module Keyboard {
  import opened Wrappers

  /** One entry of the `nameToKeys` map: an event name and the keys bound to it. */
  datatype Binding = Binding(name: string, keys: seq<string>)

  datatype KeyError =
    | DuplicateKey(key: string)   // the constructor's "Duplicate key" error
    | UnknownName(name: string)   // `has` on a name with no entry: iterating `undefined` throws

  /** Every bound key, in the order the constructor visits them. */
  function AllKeys(bindings: seq<Binding>): (r: seq<string>)
    ensures bindings == [] ==> r == []
  {
    if bindings == [] then []
    else AllKeys(bindings[..|bindings| - 1]) + bindings[|bindings| - 1].keys
  }

  ghost predicate NoDuplicates(s: seq<string>)
  {
    forall p, q :: 0 <= p < q < |s| ==> s[p] != s[q]
  }

  /** `key` is the first element of `s` that repeats an earlier one. */
  ghost predicate FirstRepeat(s: seq<string>, key: string)
  {
    exists p :: 0 <= p < |s| && s[p] == key && key in s[..p] && NoDuplicates(s[..p])
  }

  lemma {:induction false} AllKeysMember(bindings: seq<Binding>, key: string)
    ensures key in AllKeys(bindings) <==> exists i :: 0 <= i < |bindings| && key in bindings[i].keys
  {
    if bindings != [] {
      var init := bindings[..|bindings| - 1];
      AllKeysMember(init, key);
      if key in AllKeys(bindings) && key !in bindings[|bindings| - 1].keys {
        var i :| 0 <= i < |init| && key in init[i].keys;
        assert bindings[i] == init[i];
      }
      if exists i :: 0 <= i < |bindings| && key in bindings[i].keys {
        var i :| 0 <= i < |bindings| && key in bindings[i].keys;
        if i < |init| {
          assert init[i] == bindings[i];
        }
      }
    }
  }

  /** The keys of the first `m` names come first among all the keys. */
  lemma {:induction false} AllKeysPrefix(bindings: seq<Binding>, m: nat)
    requires m <= |bindings|
    ensures AllKeys(bindings[..m]) <= AllKeys(bindings)
    decreases |bindings|
  {
    if m < |bindings| {
      var init := bindings[..|bindings| - 1];
      assert init[..m] == bindings[..m];
      AllKeysPrefix(init, m);
    } else {
      assert bindings[..m] == bindings;
    }
  }

  lemma AllKeysStep(bindings: seq<Binding>, i: nat)
    requires i < |bindings|
    ensures AllKeys(bindings[..i + 1]) == AllKeys(bindings[..i]) + bindings[i].keys
  {
    assert bindings[..i + 1][..i] == bindings[..i];
  }

  lemma RepeatIsListed(s: seq<string>, key: string)
    requires FirstRepeat(s, key)
    ensures key in s
  {
  }

  /** A sequence with a repeat in some prefix has a repeat. */
  lemma RepeatBreaksDistinctness(s: seq<string>, key: string)
    requires FirstRepeat(s, key)
    ensures !NoDuplicates(s)
  {
    var p :| 0 <= p < |s| && s[p] == key && key in s[..p] && NoDuplicates(s[..p]);
    var q :| 0 <= q < p && s[..p][q] == key;
    assert s[q] == s[p];
  }

  /** The constructor's first pair of loops: every key of every name, in order, is entered
      into `keyToName`, failing on the first key already present. On success the table maps
      exactly the bound keys, each to the name it is listed under. */
  method BuildKeyTable(bindings: seq<Binding>) returns (r: Result<map<string, string>, KeyError>)
    ensures r.Success? <==> NoDuplicates(AllKeys(bindings))
    ensures r.Success? ==> forall key :: key in r.value <==> key in AllKeys(bindings)
    ensures r.Success? ==> forall i, key :: 0 <= i < |bindings| && key in bindings[i].keys ==>
      key in r.value && r.value[key] == bindings[i].name
    ensures r.Failure? ==> r.error.DuplicateKey? && FirstRepeat(AllKeys(bindings), r.error.key)
  {
    var table: map<string, string> := map[];
    for i := 0 to |bindings|
      invariant NoDuplicates(AllKeys(bindings[..i]))
      invariant forall key :: key in table <==> key in AllKeys(bindings[..i])
      invariant forall i', key :: 0 <= i' < i && key in bindings[i'].keys ==> key in table && table[key] == bindings[i'].name
    {
      var entered, j := EnterKeys(table, AllKeys(bindings[..i]), bindings[i].keys, bindings[i].name);
      if entered.Failure? {
        FoundRepeat(bindings, i, j);
        return Failure(entered.error);
      }
      AllKeysStep(bindings, i);
      table := entered.value;
    }
    assert bindings[..|bindings|] == bindings;
    return Success(table);
  }

  /** The constructor's inner loop for one name: enter each of its keys, failing on the first
      one already in the table (`seen` lists the table's keys in order). On failure,
      `failedAt` is the position of the repeated key. */
  method EnterKeys(table: map<string, string>, ghost seen: seq<string>, keys: seq<string>, name: string)
    returns (r: Result<map<string, string>, KeyError>, ghost failedAt: nat)
    requires NoDuplicates(seen)
    requires forall key :: key in table <==> key in seen
    ensures r.Success? ==> NoDuplicates(seen + keys)
    ensures r.Success? ==> forall key :: key in r.value <==> key in seen + keys
    ensures r.Success? ==> forall key :: key in table ==> r.value[key] == table[key]
    ensures r.Success? ==> forall key :: key in keys ==> r.value[key] == name
    ensures r.Failure? ==>
      && failedAt < |keys| && r.error == DuplicateKey(keys[failedAt])
      && NoDuplicates(seen + keys[..failedAt]) && keys[failedAt] in seen + keys[..failedAt]
  {
    var entered := table;
    for j := 0 to |keys|
      invariant NoDuplicates(seen + keys[..j])
      invariant forall key :: key in entered <==> key in seen + keys[..j]
      invariant forall key :: key in table ==> entered[key] == table[key]
      invariant forall key :: key in keys[..j] ==> entered[key] == name
    {
      var key := keys[j];
      if key in entered {
        return Failure(DuplicateKey(key)), j;
      }
      ExtendDistinct(seen + keys[..j], key);
      assert seen + keys[..j + 1] == (seen + keys[..j]) + [key];
      entered := entered[key := name];
    }
    assert keys[..|keys|] == keys;
    return Success(entered), 0;
  }

  lemma ExtendDistinct(s: seq<string>, key: string)
    requires NoDuplicates(s) && key !in s
    ensures NoDuplicates(s + [key])
  {
  }

  /** Key j of name i, already seen among the keys before it, is the first repeat overall. */
  lemma FoundRepeat(bindings: seq<Binding>, i: nat, j: nat)
    requires i < |bindings| && j < |bindings[i].keys|
    requires var seen := AllKeys(bindings[..i]) + bindings[i].keys[..j];
      NoDuplicates(seen) && bindings[i].keys[j] in seen
    ensures FirstRepeat(AllKeys(bindings), bindings[i].keys[j])
  {
    var seen := AllKeys(bindings[..i]) + bindings[i].keys[..j];
    var all := AllKeys(bindings);
    AllKeysStep(bindings, i);
    AllKeysPrefix(bindings, i + 1);
    var p := |seen|;
    assert seen + [bindings[i].keys[j]] <= AllKeys(bindings[..i + 1]) by {
      assert bindings[i].keys[..j + 1] == bindings[i].keys[..j] + [bindings[i].keys[j]];
    }
    assert all[..p] == seen && all[p] == bindings[i].keys[j];
  }

  /** `nameToKeys.get(name)`: the key list of the entry for `name`, if there is one. */
  function Lookup(bindings: seq<Binding>, name: string): (r: Option<seq<string>>)
    ensures r.None? <==> forall i :: 0 <= i < |bindings| ==> bindings[i].name != name
    ensures r.Some? ==> exists i :: 0 <= i < |bindings| && bindings[i].name == name && bindings[i].keys == r.value
  {
    if bindings == [] then None
    else if bindings[0].name == name then Some(bindings[0].keys)
    else
      var r := Lookup(bindings[1..], name);
      assert r.Some? ==> exists i :: 1 <= i < |bindings| && bindings[i].name == name && bindings[i].keys == r.value by {
        if r.Some? {
          var i :| 0 <= i < |bindings[1..]| && bindings[1..][i].name == name && bindings[1..][i].keys == r.value;
          assert bindings[i + 1] == bindings[1..][i];
        }
      }
      r
  }

  /** Names are distinct, as the keys of a map are. */
  ghost predicate DistinctNames(bindings: seq<Binding>)
  {
    forall p, q :: 0 <= p < q < |bindings| ==> bindings[p].name != bindings[q].name
  }

  class Keyboard {
    const nameToKeys: seq<Binding>
    const keyToName: map<string, string>
    /** The names that have an event channel. */
    const channels: set<string>
    var pressed: set<string>
    /** The names whose event was sent, oldest first. */
    var fired: seq<string>

    /** Only bound keys are ever held, and every bound key's name has a channel. */
    ghost predicate Valid()
      reads this
    {
      && (forall key :: key in pressed ==> key in keyToName)
      && (forall key :: key in keyToName ==> keyToName[key] in channels)
    }

    constructor (nameToKeys: seq<Binding>, keyToName: map<string, string>)
      requires forall key :: key in keyToName ==> exists i :: 0 <= i < |nameToKeys| && keyToName[key] == nameToKeys[i].name
      ensures Valid()
      ensures this.nameToKeys == nameToKeys && this.keyToName == keyToName
      ensures channels == set i | 0 <= i < |nameToKeys| :: nameToKeys[i].name
      ensures pressed == {} && fired == []
    {
      var names: set<string> := {};
      for i := 0 to |nameToKeys|
        invariant names == set i' | 0 <= i' < i :: nameToKeys[i'].name
      {
        names := names + {nameToKeys[i].name};
      }
      this.nameToKeys := nameToKeys;
      this.keyToName := keyToName;
      channels := names;
      pressed := {};
      fired := [];
    }

    /** The constructor: builds the key table (failing on a duplicate key), then one event
        channel per name. */
    static method Create(nameToKeys: seq<Binding>) returns (r: Result<Keyboard, KeyError>)
      ensures r.Success? <==> NoDuplicates(AllKeys(nameToKeys))
      ensures r.Failure? ==> r.error.DuplicateKey? && FirstRepeat(AllKeys(nameToKeys), r.error.key)
      ensures r.Success? ==> fresh(r.value) && r.value.Valid() && r.value.nameToKeys == nameToKeys
      ensures r.Success? ==> r.value.pressed == {} && r.value.fired == []
      ensures r.Success? ==> forall i, key :: 0 <= i < |nameToKeys| && key in nameToKeys[i].keys ==>
        key in r.value.keyToName && r.value.keyToName[key] == nameToKeys[i].name
      ensures r.Success? ==> forall key :: key in r.value.keyToName <==> key in AllKeys(nameToKeys)
    {
      var table := BuildKeyTable(nameToKeys);
      if table.Failure? {
        return Failure(table.error);
      }
      forall key | key in table.value
        ensures exists i :: 0 <= i < |nameToKeys| && table.value[key] == nameToKeys[i].name
      {
        AllKeysMember(nameToKeys, key);
      }
      var keyboard := new Keyboard(nameToKeys, table.value);
      return Success(keyboard);
    }

    /** A keydown of a bound key sends its name's event unless that key is already held, then
        marks it held; an unbound key changes nothing. */
    method HandleKeyDown(key: string)
      requires Valid()
      modifies this`pressed, this`fired
      ensures Valid()
      ensures pressed == if key in keyToName then old(pressed) + {key} else old(pressed)
      ensures fired == old(fired) + (if key in keyToName && key !in old(pressed) then [keyToName[key]] else [])
      ensures key in keyToName && key !in old(pressed) ==> keyToName[key] in channels
    {
      if key in keyToName {
        if key !in pressed {
          var name := keyToName[key];
          fired := fired + [name];
        }
        pressed := pressed + {key};
      }
    }

    /** A keyup releases the key; releasing a key that is not held is harmless. */
    method HandleKeyUp(key: string)
      requires Valid()
      modifies this`pressed
      ensures Valid()
      ensures pressed == old(pressed) - {key}
    {
      pressed := pressed - {key};
    }

    /** Whether any key bound to `name` is held; a name with no entry is an error. */
    method Has(name: string) returns (r: Result<bool, KeyError>)
      ensures r.Failure? <==> Lookup(nameToKeys, name).None?
      ensures r.Failure? ==> r.error == UnknownName(name)
      ensures r.Success? ==> (r.value <==> exists key :: key in Lookup(nameToKeys, name).value && key in pressed)
    {
      var entry := Lookup(nameToKeys, name);
      if entry.None? {
        return Failure(UnknownName(name));
      }
      var keys := entry.value;
      for i := 0 to |keys|
        invariant forall j :: 0 <= j < i ==> keys[j] !in pressed
      {
        if keys[i] in pressed {
          return Success(true);
        }
      }
      return Success(false);
    }
  }

  /** With distinct names, `Lookup` finds the key list of the one entry for the name. */
  lemma {:induction false} LookupDistinct(bindings: seq<Binding>, i: nat)
    requires DistinctNames(bindings) && i < |bindings|
    ensures Lookup(bindings, bindings[i].name) == Some(bindings[i].keys)
  {
    if i > 0 {
      var tail := bindings[1..];
      assert tail[i - 1] == bindings[i];
      assert bindings[0].name != bindings[i].name;
      LookupDistinct(tail, i - 1);
    }
  }

  /** "a" and "ArrowLeft" bound to "left", "d" to "right". */
  const LeftRight: seq<Binding> := [Binding("left", ["a", "ArrowLeft"]), Binding("right", ["d"])]

  lemma LeftRightKeys()
    ensures AllKeys(LeftRight) == ["a", "ArrowLeft", "d"]
    ensures NoDuplicates(AllKeys(LeftRight))
  {
    AllKeysStep(LeftRight, 0);
    AllKeysStep(LeftRight, 1);
    assert LeftRight[..0] == [] && LeftRight[..2] == LeftRight;
    ThreeKeysDistinct();
  }

  lemma ThreeKeysDistinct()
    ensures NoDuplicates(["a", "ArrowLeft", "d"])
  {
    var keys := ["a", "ArrowLeft", "d"];
    assert |keys[0]| == 1 && |keys[1]| == 9 && |keys[2]| == 1 && keys[0][0] != keys[2][0];
  }

  /** The keyboard with "a" and "ArrowLeft" bound to "left" and "d" to "right". */
  method LeftRightKeyboard() returns (keyboard: Keyboard)
    ensures fresh(keyboard) && keyboard.Valid()
    ensures keyboard.nameToKeys == LeftRight
    ensures "a" in keyboard.keyToName && "ArrowLeft" in keyboard.keyToName
    ensures keyboard.keyToName["a"] == "left" && keyboard.keyToName["ArrowLeft"] == "left"
    ensures keyboard.pressed == {} && keyboard.fired == []
  {
    LeftRightKeys();
    var made := Keyboard.Create(LeftRight);
    keyboard := made.value;
    assert "a" in LeftRight[0].keys && "ArrowLeft" in LeftRight[0].keys;
  }

  /** Holding one key and pressing it again (auto-repeat) sends nothing; a second key bound to
      the same name still sends; the name stays held until both keys are released. */
  method AutoRepeatScenario() returns (fired: seq<string>, heldBetween: bool, heldAfter: bool)
    ensures fired == ["left", "left"]
    ensures heldBetween && !heldAfter
  {
    var keyboard := LeftRightKeyboard();
    keyboard.HandleKeyDown("a");
    keyboard.HandleKeyDown("a");
    keyboard.HandleKeyDown("ArrowLeft");
    keyboard.HandleKeyUp("a");
    assert keyboard.fired == ["left", "left"];
    assert keyboard.pressed == {"ArrowLeft"};
    LookupDistinct(keyboard.nameToKeys, 0);
    assert Lookup(keyboard.nameToKeys, "left") == Some(["a", "ArrowLeft"]);
    var between := keyboard.Has("left");
    assert "ArrowLeft" in Lookup(keyboard.nameToKeys, "left").value;
    keyboard.HandleKeyUp("ArrowLeft");
    var after := keyboard.Has("left");
    fired := keyboard.fired;
    heldBetween := between.value;
    heldAfter := after.value;
  }

  /** A key listed under two names is refused at construction. */
  method DuplicateAcrossNames() returns (r: Result<map<string, string>, KeyError>)
    ensures r == Failure(DuplicateKey("x"))
  {
    var bindings := [Binding("fire", ["x"]), Binding("thrust", ["x"])];
    assert AllKeys(bindings[..1]) == ["x"];
    assert bindings[..2] == bindings;
    assert AllKeys(bindings) == ["x", "x"];
    assert AllKeys(bindings)[0] == AllKeys(bindings)[1];
    r := BuildKeyTable(bindings);
    RepeatIsListed(AllKeys(bindings), r.error.key);
  }

  /** A key listed twice under one name is refused too. */
  method DuplicateWithinName() returns (r: Result<map<string, string>, KeyError>)
    ensures r == Failure(DuplicateKey("y"))
  {
    var bindings := [Binding("fire", ["y", "y"])];
    assert bindings[..1] == bindings;
    assert AllKeys(bindings) == ["y", "y"];
    assert AllKeys(bindings)[0] == AllKeys(bindings)[1];
    r := BuildKeyTable(bindings);
    RepeatIsListed(AllKeys(bindings), r.error.key);
  }
}
