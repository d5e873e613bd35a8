/** Printing package settings as JSON and merging them back
    (settings.cpp:194-271, 360-418 and 564-570). */
module SettingsJson {
  import opened Settings
  import opened SettingsMerge

  datatype Json =
    | JNull
    | JBool(b: bool)
    | JInt(i: int)
    | JDouble(d: real)
    | JText(s: string)
    | JArray(a: seq<Json>)
    | JObject(m: map<string, Json>)

  datatype Outcome<T> = Thrown | Done(value: T)

  // ---- printing ----

  /** The position of the alternative in the variant; 9 is a resolver. */
  function Index(v: Value): int
  {
    match v
    case Empty => 0
    case Null => 1
    case Bool(_) => 2
    case Int(_) => 3
    case Double(_) => 4
    case Text(_) => 5
    case Path(_) => 6
    case Array(_) => 7
    case Map(_) => 8
    case Name(PackagePathName, _) => 10
    case Name(VersionName, _) => 11
    case Name(PackageNameName, _) => 12
    case Name(VersionRangeName, _) => 13
    case Name(UnresolvedName, _) => 14
  }

  /** PackageSetting::toJson.  The flag goes under a misspelled key, which the
      reader does not know. */
  function Print(s: Setting): Json
  {
    var j := map["index" := JInt(Index(s.value)), "value" := PrintValue(s.value)];
    JObject(if s.ignoreInComparison then j["protperties" := JObject(map["ignore_in_comparison" := JBool(true)])] else j)
  }

  function PrintValue(v: Value): Json
  {
    match v
    case Empty => JNull
    case Null => JNull
    case Bool(b) => JBool(b)
    case Int(i) => JInt(i)
    case Double(d) => JDouble(d)
    case Text(s) => JText(s)
    case Path(p) => JText(p)
    case Array(a) => if a == [] then JNull else JArray(seq(|a|, i requires 0 <= i < |a| => Print(a[i])))
    case Map(m) =>
      if Printed(m) == {} then JNull
      else JObject(map k | k in m && !m[k].ignoreInComparison && !m[k].value.Empty? :: Print(m[k]))
    case Name(_, name) => JText(name)
  }

  /** The entries PackageSettings::toJson does not skip. */
  function Printed(m: map<Key, Setting>): set<Key>
  {
    set k | k in m && !m[k].ignoreInComparison && !m[k].value.Empty?
  }

  /** What is printed of a map: the entries that are not empty and carry no flag; nothing
      at all if there are none. */
  lemma PrintsExactly(m: map<Key, Setting>, k: Key)
    ensures var j := PrintValue(Map(m));
            && (j.JNull? || j.JObject?)
            && (j.JObject? && k in j.m <==> k in m && !m[k].value.Empty? && !m[k].ignoreInComparison)
            && (j.JNull? <==> forall l | l in m :: m[l].value.Empty? || m[l].ignoreInComparison)
  {
    if k in m && !m[k].value.Empty? && !m[k].ignoreInComparison {
      assert k in Printed(m);
    }
    if Printed(m) != {} {
      var l :| l in Printed(m);
    } else {
      forall l | l in m
        ensures m[l].value.Empty? || m[l].ignoreInComparison
      {
        assert l !in Printed(m);
      }
    }
  }

  // ---- merging ----

  function Scalar(index: int, j: Json): (r: Outcome<Setting>)
    ensures r.Done? ==> !r.value.ignoreInComparison
  {
    match j
    case JBool(b) => if index == 2 then Done(Setting(Bool(b), false)) else Thrown
    case JInt(i) => if index == 3 then Done(Setting(Int(i), false)) else Thrown
    case JDouble(d) => if index == 4 then Done(Setting(Double(d), false)) else Thrown
    case JText(s) =>
      if index == 5 then Done(Setting(Text(s), false))
      else if index == 6 then Done(Setting(Path(s), false))
      else if index == 10 then Done(Setting(Name(PackagePathName, s), false))
      else if index == 11 then Done(Setting(Name(VersionName, s), false))
      else if index == 12 then Done(Setting(Name(PackageNameName, s), false))
      else if index == 13 then Done(Setting(Name(VersionRangeName, s), false))
      else if index == 14 then Done(Setting(Name(UnresolvedName, s), false))
      else Thrown
    case _ => Thrown
  }

  /** PackageSetting::mergeFromJson. */
  function Merge(s: Setting, j: Json): (r: Outcome<Setting>)
    ensures r.Done? && r.value.ignoreInComparison ==> s.ignoreInComparison
    decreases j
  {
    if !j.JObject? || "properties" in j.m || "index" !in j.m || !j.m["index"].JInt? then Thrown
    else
      var index := j.m["index"].i;
      if index == 1 || index == 9 then Done(s)
      else if "value" !in j.m then Thrown
      else if index == 7 then MergeArray(j.m["value"])
      else if index == 8 then
        if s.value.Map? then
          var r := MergeMap(s.value.m, j.m["value"]);
          if r.Done? then Done(Setting(Map(r.value), s.ignoreInComparison)) else Thrown
        else if s.value.Empty? then
          var r := MergeMap(map[], j.m["value"]);
          if r.Done? then Done(Setting(Map(r.value), false)) else Thrown
        else Thrown
      else Scalar(index, j.m["value"])
  }

  /** Elements are read one by one, each into a fresh setting; walking a null gives none. */
  function MergeArray(j: Json): (r: Outcome<Setting>)
    ensures r.Done? ==> !r.value.ignoreInComparison
    decreases j
  {
    if j.JNull? then Done(Setting(Array([]), false))
    else if j.JArray? && forall i | 0 <= i < |j.a| :: Merge(NoSetting, j.a[i]).Done? then
      Done(Setting(Array(seq(|j.a|, i requires 0 <= i < |j.a| => Merge(NoSetting, j.a[i]).value)), false))
    else Thrown
  }

  /** PackageSettings::mergeFromJson. */
  function MergeMap(m: map<Key, Setting>, j: Json): Outcome<map<Key, Setting>>
    decreases j
  {
    if !j.JObject? then Thrown
    else if forall k | k in j.m :: Merge(Get(m, k), j.m[k]).Done? then
      Done(map k | k in m.Keys + j.m.Keys :: if k in j.m then Merge(Get(m, k), j.m[k]).value else m[k])
    else Thrown
  }

  // ---- the round trip ----

  /** What survives printing: no null, no empty array element, no map without a
      printed entry, among all that is printed. */
  predicate Faithful(v: Value)
  {
    match v
    case Empty => false
    case Null => false
    case Array(a) => forall i | 0 <= i < |a| :: Faithful(a[i].value)
    case Map(m) =>
      Printed(m) != {} && forall k | k in m && !m[k].ignoreInComparison && !m[k].value.Empty? :: Faithful(m[k].value)
    case _ => true
  }

  function Back(s: Setting): Outcome<Setting>
  {
    Merge(NoSetting, Print(s))
  }

  ghost predicate ReadsBack(s: Setting)
  {
    Back(s).Done? && Equal(Back(s).value.value, s.value)
  }

  /** Printing and reading back gives an equal setting exactly for faithful ones. */
  lemma {:induction false} RoundTrip(s: Setting)
    ensures ReadsBack(s) <==> Faithful(s.value)
    decreases s
  {
    if s.value.Array? {
      forall i | 0 <= i < |s.value.a|
        ensures ReadsBack(s.value.a[i]) <==> Faithful(s.value.a[i].value)
      {
        RoundTrip(s.value.a[i]);
      }
      ArrayReadsBack(s);
    } else if s.value.Map? {
      forall k | k in s.value.m
        ensures ReadsBack(s.value.m[k]) <==> Faithful(s.value.m[k].value)
      {
        RoundTrip(s.value.m[k]);
      }
      MapReadsBack(s.value.m);
      MapBackWhole(s);
      assert s.value == Map(s.value.m);
    } else {
      ScalarReadsBack(s);
    }
  }

  lemma ScalarReadsBack(s: Setting)
    requires !s.value.Array? && !s.value.Map?
    ensures ReadsBack(s) <==> Faithful(s.value)
  {
    var j := Print(s);
    assert j.m["index"].i == Index(s.value) && j.m["value"] == PrintValue(s.value);
    assert Back(s) == Merge(NoSetting, j);
  }

  lemma ArrayBackElements(s: Setting)
    requires s.value.Array?
    ensures Back(s).Done? <==> forall i | 0 <= i < |s.value.a| :: Back(s.value.a[i]).Done?
    ensures Back(s).Done? ==>
              && Back(s).value.value.Array? && |Back(s).value.value.a| == |s.value.a|
              && forall i | 0 <= i < |s.value.a| :: Back(s).value.value.a[i] == Back(s.value.a[i]).value
  {
    var a, j := s.value.a, PrintValue(s.value);
    assert Back(s) == MergeArray(j);
    if a != [] {
      assert |j.a| == |a| && forall i | 0 <= i < |a| :: j.a[i] == Print(a[i]);
    }
  }

  lemma ArrayReadsBack(s: Setting)
    requires s.value.Array?
    requires forall i | 0 <= i < |s.value.a| :: ReadsBack(s.value.a[i]) <==> Faithful(s.value.a[i].value)
    ensures ReadsBack(s) <==> Faithful(s.value)
  {
    ArrayBackElements(s);
  }

  /** PackageSettings::toJson, then mergeFromJson into fresh settings. */
  function MapBack(m: map<Key, Setting>): Outcome<map<Key, Setting>>
  {
    MergeMap(map[], PrintValue(Map(m)))
  }

  lemma MapBackEntries(m: map<Key, Setting>)
    requires Printed(m) != {}
    ensures MapBack(m).Done? <==> forall k | k in Printed(m) :: Back(m[k]).Done?
    ensures MapBack(m).Done? ==>
              && MapBack(m).value.Keys == Printed(m)
              && forall k | k in Printed(m) :: MapBack(m).value[k] == Back(m[k]).value
  {
    var j := PrintValue(Map(m));
    assert j.m.Keys == Printed(m);
    assert forall k | k in Printed(m) :: j.m[k] == Print(m[k]);
  }

  lemma MapReadsBack(m: map<Key, Setting>)
    requires forall k | k in m :: ReadsBack(m[k]) <==> Faithful(m[k].value)
    ensures MapBack(m).Done? && Equal(Map(MapBack(m).value), Map(m)) <==> Faithful(Map(m))
  {
    if Printed(m) != {} {
      MapBackEntries(m);
      if MapBack(m).Done? { SameButUnprinted(MapBack(m).value, m); }
    }
  }

  /** Equality with a map whose entries are the printed ones. */
  lemma SameButUnprinted(r: map<Key, Setting>, m: map<Key, Setting>)
    requires r.Keys == Printed(m) && forall k | k in r :: !r[k].ignoreInComparison
    ensures Equal(Map(r), Map(m)) <==> forall k | k in r :: Equal(r[k].value, m[k].value)
  {
  }

  lemma MapBackWhole(s: Setting)
    requires s.value.Map?
    ensures Back(s) == if MapBack(s.value.m).Done? then Done(Setting(Map(MapBack(s.value.m).value), false)) else Thrown
  {
    var j := Print(s);
    assert j.m["index"].i == 8 && j.m["value"] == PrintValue(s.value);
    assert Back(s) == Merge(NoSetting, j);
  }

  /** The same for whole package settings. */
  lemma SettingsRoundTrip(m: map<Key, Setting>)
    ensures MapBack(m).Done? && Equal(Map(MapBack(m).value), Map(m)) <==> Faithful(Map(m))
  {
    forall k | k in m
      ensures ReadsBack(m[k]) <==> Faithful(m[k].value)
    {
      RoundTrip(m[k]);
    }
    MapReadsBack(m);
  }

  // ---- merging over settings that are there ----

  /** What is read takes the place of what was there, whatever it was, unless both are maps. */
  lemma ReadingOverrides(s: Setting, x: Setting)
    requires Faithful(s.value) && !s.value.Map?
    ensures Merge(x, Print(s)) == Back(s) && ReadsBack(s)
  {
    RoundTrip(s);
    var j := Print(s);
    assert j.m["index"].i == Index(s.value) && j.m["value"] == PrintValue(s.value);
  }

  /** No printed map meets a setting that is there and is no map. */
  predicate NoClash(m: map<Key, Setting>, n: map<Key, Setting>)
    decreases Map(n)
  {
    forall k | k in Printed(n) && n[k].value.Map? ::
      k !in m || m[k].value.Empty? || (m[k].value.Map? && NoClash(m[k].value.m, n[k].value.m))
  }

  /** Entries that are not printed stay as they were, at every depth. */
  predicate KeepsTheRest(m: map<Key, Setting>, n: map<Key, Setting>, r: map<Key, Setting>)
    decreases Map(n)
  {
    && r.Keys == m.Keys + Printed(n)
    && (forall k | k in m && k !in Printed(n) :: r[k] == m[k])
    && (forall k | k in m && k in Printed(n) && m[k].value.Map? && n[k].value.Map? ::
          r[k].value.Map? && r[k].ignoreInComparison == m[k].ignoreInComparison
          && KeepsTheRest(m[k].value.m, n[k].value.m, r[k].value.m))
  }

  function MergePrinted(m: map<Key, Setting>, n: map<Key, Setting>): Outcome<map<Key, Setting>>
  {
    MergeMap(m, PrintValue(Map(n)))
  }

  lemma MergedEntries(m: map<Key, Setting>, n: map<Key, Setting>)
    requires Printed(n) != {}
    ensures MergePrinted(m, n).Done? <==> forall k | k in Printed(n) :: Merge(Get(m, k), Print(n[k])).Done?
    ensures MergePrinted(m, n).Done? ==>
              && MergePrinted(m, n).value.Keys == m.Keys + Printed(n)
              && (forall k | k in Printed(n) :: MergePrinted(m, n).value[k] == Merge(Get(m, k), Print(n[k])).value)
              && (forall k | k in m && k !in Printed(n) :: MergePrinted(m, n).value[k] == m[k])
  {
    var j := PrintValue(Map(n));
    assert j.m.Keys == Printed(n);
    assert forall k | k in Printed(n) :: j.m[k] == Print(n[k]);
  }

  /** Merging a printed map into one setting. */
  lemma MergedMap(x: Setting, s: Setting)
    requires s.value.Map?
    ensures Merge(x, Print(s))
            == if !x.value.Map? && !x.value.Empty? then Thrown
               else
                 var r := MergePrinted(if x.value.Map? then x.value.m else map[], s.value.m);
                 if r.Done? then Done(Setting(Map(r.value), x.value.Map? && x.ignoreInComparison)) else Thrown
  {
    var j := Print(s);
    assert j.m["index"].i == 8 && j.m["value"] == PrintValue(s.value);
    assert s.value == Map(s.value.m);
  }

  /** What is printed overrides: merging faithful settings into any others throws exactly
      where a map meets a setting that is no map, and otherwise all of them are there
      afterwards, and the rest is as it was. */
  lemma {:induction false} MergingOverrides(m: map<Key, Setting>, n: map<Key, Setting>)
    requires Faithful(Map(n))
    ensures MergePrinted(m, n).Done? <==> NoClash(m, n)
    ensures MergePrinted(m, n).Done? ==>
              IsSubset(Map(n), Map(MergePrinted(m, n).value)) && KeepsTheRest(m, n, MergePrinted(m, n).value)
    decreases Map(n)
  {
    forall k | k in Printed(n)
      ensures Merge(Get(m, k), Print(n[k])).Done?
              <==> (n[k].value.Map? && k in m && !m[k].value.Empty? ==> m[k].value.Map? && NoClash(m[k].value.m, n[k].value.m))
      ensures Merge(Get(m, k), Print(n[k])).Done? ==> Overrides(Get(m, k), n[k], Merge(Get(m, k), Print(n[k])).value)
    {
      EntryOverrides(m, n, k);
    }
    MergedEntries(m, n);
  }

  /** `r` has all of `s`, and all of the map `x` besides. */
  ghost predicate Overrides(x: Setting, s: Setting, r: Setting)
  {
    && !r.value.Empty?
    && (if s.value.Map? && r.value.Map? then IsSubset(s.value, r.value) else EqualSettings(r, s))
    && (x.value.Map? && s.value.Map? ==>
          r.value.Map? && r.ignoreInComparison == x.ignoreInComparison && KeepsTheRest(x.value.m, s.value.m, r.value.m))
  }

  lemma {:induction false} EntryOverrides(m: map<Key, Setting>, n: map<Key, Setting>, k: Key)
    requires Faithful(Map(n)) && k in Printed(n)
    ensures Merge(Get(m, k), Print(n[k])).Done?
            <==> (n[k].value.Map? && k in m && !m[k].value.Empty? ==> m[k].value.Map? && NoClash(m[k].value.m, n[k].value.m))
    ensures Merge(Get(m, k), Print(n[k])).Done? ==> Overrides(Get(m, k), n[k], Merge(Get(m, k), Print(n[k])).value)
    decreases Map(n), 0
  {
    var x, s := Get(m, k), n[k];
    if s.value.Map? {
      assert s.value == Map(s.value.m);
      MergedMap(x, s);
      if x.value.Map? || x.value.Empty? {
        var there := if x.value.Map? then x.value.m else map[];
        MergingOverrides(there, s.value.m);
        NothingClashes(s.value.m);
      }
    } else {
      ReadingOverrides(s, x);
    }
  }

  lemma NothingClashes(n: map<Key, Setting>)
    ensures NoClash(map[], n)
  {
  }

  // ---- the format ----

  function Entry(index: int, value: Json): Json
  {
    JObject(map["index" := JInt(index), "value" := value])
  }

  lemma EntryIsScalar(x: Setting, index: int, value: Json)
    requires 2 <= index <= 6 || 10 <= index <= 14
    ensures Merge(x, Entry(index, value)) == Scalar(index, value)
  {
    var j := Entry(index, value);
    assert j.m["index"].i == index && j.m["value"] == value;
  }

  /** What the numbers stand for, which files on disk depend on. */
  lemma ScalarsByNumber(x: Setting, b: bool, i: int, d: real, s: string)
    ensures Merge(x, Entry(2, JBool(b))) == Done(Setting(Bool(b), false))
    ensures Merge(x, Entry(3, JInt(i))) == Done(Setting(Int(i), false))
    ensures Merge(x, Entry(4, JDouble(d))) == Done(Setting(Double(d), false))
    ensures Merge(x, Entry(5, JText(s))) == Done(Setting(Text(s), false))
    ensures Merge(x, Entry(6, JText(s))) == Done(Setting(Path(s), false))
  {
    EntryIsScalar(x, 2, JBool(b));
    EntryIsScalar(x, 3, JInt(i));
    EntryIsScalar(x, 4, JDouble(d));
    EntryIsScalar(x, 5, JText(s));
    EntryIsScalar(x, 6, JText(s));
  }

  lemma NamesByNumber(x: Setting, s: string)
    ensures Merge(x, Entry(10, JText(s))) == Done(Setting(Name(PackagePathName, s), false))
    ensures Merge(x, Entry(11, JText(s))) == Done(Setting(Name(VersionName, s), false))
    ensures Merge(x, Entry(12, JText(s))) == Done(Setting(Name(PackageNameName, s), false))
    ensures Merge(x, Entry(13, JText(s))) == Done(Setting(Name(VersionRangeName, s), false))
    ensures Merge(x, Entry(14, JText(s))) == Done(Setting(Name(UnresolvedName, s), false))
  {
    EntryIsScalar(x, 10, JText(s));
    EntryIsScalar(x, 11, JText(s));
    EntryIsScalar(x, 12, JText(s));
    EntryIsScalar(x, 13, JText(s));
    EntryIsScalar(x, 14, JText(s));
  }

  lemma OthersByNumber(x: Setting)
    ensures Merge(x, Entry(1, JNull)) == Done(x) == Merge(x, Entry(9, JNull))
    ensures Merge(x, Entry(7, JArray([]))) == Done(Setting(Array([]), false))
    ensures Merge(NoSetting, Entry(8, JObject(map[]))) == Done(Setting(Map(map[]), false))
  {
    var a, m, none := Entry(7, JArray([])), Entry(8, JObject(map[])), JObject(map[]);
    assert Entry(1, JNull).m["index"].i == 1 && Entry(9, JNull).m["index"].i == 9;
    assert a.m["index"].i == 7 && a.m["value"] == JArray([]) && m.m["index"].i == 8 && m.m["value"] == none;
    assert MergeArray(JArray([])).value.value.a == [];
    assert MergeMap(map[], none).value == map[];
  }

  /** What is refused, whatever else is there. */
  lemma Refused(x: Setting, j: Json)
    ensures !j.JObject? || "index" !in j.m || "properties" in j.m ==> Merge(x, j) == Thrown
    ensures j.JObject? && "index" in j.m && j.m["index"].JInt? && (j.m["index"].i < 1 || j.m["index"].i > 14) ==> Merge(x, j) == Thrown
  {
  }
}
