/** Package settings as they change: the loops over std::map and the recursion into
    nested settings.  A nested setting is a value here: it is taken out, merged and
    put back. */
module PackageSettingsObjects {
  import opened Settings
  import opened SettingsMerge
  import opened SettingsJson

  class PackageSettings {
    var settings: map<Key, Setting>

    constructor (settings: map<Key, Setting>)
      ensures this.settings == settings
    {
      this.settings := settings;
    }

    /** `ok` is false where std::get<Map> throws; entries visited before stay merged. */
    method MergeMissing(rhs: map<Key, Setting>) returns (ok: bool)
      modifies this
      decreases Map(rhs), 1
      ensures ok <==> CanMerge(Map(old(settings)), Map(rhs))
      ensures ok ==> Map(settings) == FillIn(Setting(Map(old(settings)), false), Setting(Map(rhs), false)).value
      ensures settings.Keys <= old(settings).Keys + rhs.Keys
    {
      ghost var before := settings;
      var todo := rhs.Keys;
      while todo != {}
        invariant todo <= rhs.Keys
        invariant settings.Keys == before.Keys + (rhs.Keys - todo)
        invariant forall k | k in rhs.Keys - todo && k in before :: CanMerge(before[k].value, rhs[k].value)
        invariant forall k | k in settings ::
                    settings[k] == if k in before && k in rhs && k !in todo then FillIn(before[k], rhs[k])
                                   else if k in before then before[k] else rhs[k]
      {
        var k :| k in todo;
        var merged;
        ok, merged := MergeMissingSetting(Get(settings, k), rhs[k]);
        if !ok { return; }
        settings := settings[k := merged];
        todo := todo - {k};
      }
      ok := true;
    }

    static method MergeMissingSetting(x: Setting, y: Setting) returns (ok: bool, r: Setting)
      decreases y, 0
      ensures ok <==> CanMerge(x.value, y.value)
      ensures ok ==> r == FillIn(x, y)
    {
      if x.value.Map? {
        if !y.value.Map? { return false, x; }
        var nested := new PackageSettings(x.value.m);
        ok := nested.MergeMissing(y.value.m);
        r := x.(value := Map(nested.settings));
      } else {
        ok, r := true, if x.value.Empty? then y else x;
      }
    }

    method MergeAndAssign(rhs: map<Key, Setting>) returns (ok: bool)
      modifies this
      decreases Map(rhs), 1
      ensures ok <==> CanMerge(Map(old(settings)), Map(rhs))
      ensures ok ==> Map(settings) == Override(Setting(Map(old(settings)), false), Setting(Map(rhs), false)).value
      ensures settings.Keys <= old(settings).Keys + rhs.Keys
    {
      ghost var before := settings;
      var todo := rhs.Keys;
      while todo != {}
        invariant todo <= rhs.Keys
        invariant settings.Keys == before.Keys + (rhs.Keys - todo)
        invariant forall k | k in rhs.Keys - todo && k in before :: CanMerge(before[k].value, rhs[k].value)
        invariant forall k | k in settings ::
                    settings[k] == if k in before && k in rhs && k !in todo then Override(before[k], rhs[k])
                                   else if k in before then before[k] else rhs[k]
      {
        var k :| k in todo;
        var merged;
        ok, merged := MergeAndAssignSetting(Get(settings, k), rhs[k]);
        if !ok { return; }
        settings := settings[k := merged];
        todo := todo - {k};
      }
      ok := true;
    }

    static method MergeAndAssignSetting(x: Setting, y: Setting) returns (ok: bool, r: Setting)
      decreases y, 0
      ensures ok <==> CanMerge(x.value, y.value)
      ensures ok ==> r == Override(x, y)
    {
      if x.value.Map? {
        if !y.value.Map? { return false, x; }
        var nested := new PackageSettings(x.value.m);
        ok := nested.MergeAndAssign(y.value.m);
        r := x.(value := Map(nested.settings));
      } else {
        ok, r := true, y;
      }
    }

    /** `ok` is false where it throws; entries visited before stay merged. */
    method MergeFromJson(j: Json) returns (ok: bool)
      modifies this
      decreases j, 0
      ensures ok <==> MergeMap(old(settings), j).Done?
      ensures ok ==> settings == MergeMap(old(settings), j).value
    {
      if !j.JObject? { return false; }
      ghost var before := settings;
      var todo := j.m.Keys;
      while todo != {}
        invariant todo <= j.m.Keys
        invariant settings.Keys == before.Keys + (j.m.Keys - todo)
        invariant forall k | k in j.m.Keys - todo :: SettingsJson.Merge(Get(before, k), j.m[k]).Done?
        invariant forall k | k in settings ::
                    settings[k] == if k in j.m && k !in todo then SettingsJson.Merge(Get(before, k), j.m[k]).value
                                   else before[k]
      {
        var k :| k in todo;
        var merged;
        ok, merged := MergeSettingFromJson(Get(settings, k), j.m[k]);
        if !ok { return; }
        settings := settings[k := merged];
        todo := todo - {k};
      }
      ok := true;
    }

    static method MergeSettingFromJson(x: Setting, j: Json) returns (ok: bool, r: Setting)
      decreases j, 1
      ensures ok <==> SettingsJson.Merge(x, j).Done?
      ensures ok ==> r == SettingsJson.Merge(x, j).value
    {
      ok, r := false, x;
      if !j.JObject? || "properties" in j.m || "index" !in j.m || !j.m["index"].JInt? { return; }
      var index := j.m["index"].i;
      if index == 1 || index == 9 { return true, x; }
      if "value" !in j.m { return; }
      var value := j.m["value"];
      if index == 7 {
        ok, r := ReadArray(value);
      } else if index == 8 {
        if !x.value.Map? && !x.value.Empty? { return; }
        var nested := new PackageSettings(if x.value.Map? then x.value.m else map[]);
        ok := nested.MergeFromJson(value);
        r := Setting(Map(nested.settings), x.value.Map? && x.ignoreInComparison);
      } else {
        var scalar := Scalar(index, value);
        if scalar.Done? { return true, scalar.value; }
      }
    }

    static method ReadArray(j: Json) returns (ok: bool, r: Setting)
      decreases j, 0
      ensures ok <==> MergeArray(j).Done?
      ensures ok ==> r == MergeArray(j).value
    {
      var a := [];
      r := NoSetting;
      if j.JArray? {
        for i := 0 to |j.a|
          invariant |a| == i
          invariant forall l | 0 <= l < i ::
                      SettingsJson.Merge(NoSetting, j.a[l]).Done? && a[l] == SettingsJson.Merge(NoSetting, j.a[l]).value
        {
          var e;
          ok, e := MergeSettingFromJson(NoSetting, j.a[i]);
          if !ok { return; }
          a := a + [e];
        }
      } else if !j.JNull? {
        return false, r;
      }
      ok, r := true, Setting(Array(a), false);
      assert j.JArray? ==> a == MergeArray(j).value.value.a;
    }
  }
}
