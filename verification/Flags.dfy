/**
 The browser's command line (src/chrome/flags.rs, and the launch in src/factory.rs).  Chromium keeps
 only the last occurrence of a switch; `Effective` is that reading of an argument list, and the
 results say what it gives for the list the launcher builds.
 */
module Flags {
  import opened Prelude
  import opened Lists

  // ---------------------------------------------------------------- reading a command line

  /** The switch name: everything before the first equals sign. */
  function Name(f: string): (r: string)
    ensures r <= f && '=' !in r && (r == f || f[|r|] == '=')
  {
    if f == "" || f[0] == '=' then ""
    else
      var r := Name(f[1..]);
      assert [f[0]] + r <= f;
      [f[0]] + r
  }

  function Value(f: string): string {
    var n := Name(f);
    if n == f then "" else f[|n| + 1..]
  }

  /** The value the last occurrence gives a switch; `None` when it does not occur. */
  function Effective(args: seq<string>, name: string): Option<string> {
    if args == [] then None
    else
      var n := |args| - 1;
      if Name(args[n]) == name then Some(Value(args[n])) else Effective(args[..n], name)
  }

  function Occurrences(args: seq<string>, name: string): nat {
    if args == [] then 0
    else
      var n := |args| - 1;
      Occurrences(args[..n], name) + if Name(args[n]) == name then 1 else 0
  }

  lemma {:induction false} NameIs(name: string, f: string)
    requires '=' !in name && (f == name || name + "=" <= f)
    ensures Name(f) == name
    ensures f != name ==> Value(f) == f[|name| + 1..]
  {
    if name != "" {
      assert f[0] == name[0];
      NameIs(name[1..], f[1..]);
    }
  }

  /** `f` sets the switch `name` with an equals sign. */
  predicate Sets(f: string, name: string) {
    name + "=" <= f
  }

  lemma SetsIff(f: string, name: string)
    requires '=' !in name
    ensures Sets(f, name) <==> Name(f) == name && f != name
    ensures Sets(f, name) ==> Value(f) == f[|name| + 1..]
  {
    if Sets(f, name) {
      NameIs(name, f);
    }
    if Name(f) == name && f != name {
      assert f[..|name| + 1] == name + "=";
    }
  }

  lemma {:induction false} EffectiveConcat(a: seq<string>, b: seq<string>, name: string)
    ensures Effective(a + b, name) == if Effective(b, name).Some? then Effective(b, name) else Effective(a, name)
    ensures Occurrences(a + b, name) == Occurrences(a, name) + Occurrences(b, name)
  {
    if b == [] {
      assert a + b == a;
    } else {
      var n := |b| - 1;
      assert (a + b)[..|a + b| - 1] == a + b[..n];
      EffectiveConcat(a, b[..n], name);
    }
  }

  lemma {:induction false} EffectiveIffOccurs(args: seq<string>, name: string)
    ensures Effective(args, name).Some? <==> Occurrences(args, name) > 0
  {
    if args != [] {
      EffectiveIffOccurs(args[..|args| - 1], name);
    }
  }

  // ---------------------------------------------------------------- merging

  const MERGEABLE: seq<string> := ["--disable-features", "--enable-features", "--disable-blink-features"]

  predicate IsMerged(f: string) {
    exists i :: 0 <= i < |MERGEABLE| && Sets(f, MERGEABLE[i])
  }

  /** What of a flag list is left when the settings of mergeable switches are taken out. */
  function Remaining(flags: seq<string>): seq<string> {
    if flags == [] then []
    else
      var n := |flags| - 1;
      Remaining(flags[..n]) + if IsMerged(flags[n]) then [] else [flags[n]]
  }

  function FirstSetting(flags: seq<string>, name: string): Option<string> {
    if flags == [] then None
    else if Sets(flags[0], name) then Some(flags[0][|name| + 1..])
    else FirstSetting(flags[1..], name)
  }

  function AddParts(values: seq<string>, parts: seq<string>): seq<string> {
    if parts == [] then values
    else
      var n := |parts| - 1;
      var before := AddParts(values, parts[..n]);
      if parts[n] in before then before else before + [parts[n]]
  }

  function AddSettings(values: seq<string>, extra: seq<string>, name: string): seq<string> {
    if extra == [] then values
    else
      var n := |extra| - 1;
      var before := AddSettings(values, extra[..n], name);
      if Sets(extra[n], name) then AddParts(before, Split(extra[n][|name| + 1..], ',')) else before
  }

  /** All values of one mergeable switch: the built-in ones, then each new operator value once. */
  function MergedValues(defaults: seq<string>, extra: seq<string>, name: string): seq<string> {
    var own := FirstSetting(defaults, name);
    AddSettings(if own.Some? then Split(own.value, ',') else [], extra, name)
  }

  function MergedFlag(defaults: seq<string>, extra: seq<string>, name: string): seq<string> {
    var values := MergedValues(defaults, extra, name);
    if values == [] then [] else [name + "=" + Join(values, ',')]
  }

  function MergedFlags(defaults: seq<string>, extra: seq<string>, names: seq<string>): seq<string> {
    if names == [] then []
    else
      var n := |names| - 1;
      MergedFlags(defaults, extra, names[..n]) + MergedFlag(defaults, extra, names[n])
  }

  /** The nested loops of `merge_feature_switches`. */
  method MergeFeatureSwitches(defaults: seq<string>, extra: seq<string>)
    returns (merged: seq<string>, remaining: seq<string>)
    ensures merged == MergedFlags(defaults, extra, MERGEABLE)
    ensures remaining == Remaining(extra)
  {
    merged := [];
    for k := 0 to |MERGEABLE|
      invariant merged == MergedFlags(defaults, extra, MERGEABLE[..k])
    {
      var name := MERGEABLE[k];
      var own := FirstSetting(defaults, name);
      var values := if own.Some? then Split(own.value, ',') else [];
      ghost var base := values;
      for i := 0 to |extra|
        invariant values == AddSettings(base, extra[..i], name)
      {
        assert extra[..i + 1][..i] == extra[..i];
        if Sets(extra[i], name) {
          values := PushParts(values, Split(extra[i][|name| + 1..], ','));
        }
      }
      assert extra[..|extra|] == extra;
      assert MERGEABLE[..k + 1][..k] == MERGEABLE[..k];
      if values != [] {
        merged := merged + [name + "=" + Join(values, ',')];
      }
    }
    assert MERGEABLE[..|MERGEABLE|] == MERGEABLE;
    remaining := [];
    for i := 0 to |extra|
      invariant remaining == Remaining(extra[..i])
    {
      assert extra[..i + 1][..i] == extra[..i];
      if !IsMerged(extra[i]) {
        remaining := remaining + [extra[i]];
      }
    }
    assert extra[..|extra|] == extra;
  }

  method PushParts(before: seq<string>, parts: seq<string>) returns (values: seq<string>)
    ensures values == AddParts(before, parts)
  {
    values := before;
    for j := 0 to |parts|
      invariant values == AddParts(before, parts[..j])
    {
      assert parts[..j + 1][..j] == parts[..j];
      if parts[j] !in values {
        values := values + [parts[j]];
      }
    }
    assert parts[..|parts|] == parts;
  }

  // ---------------------------------------------------------------- the argument list

  datatype FlagOptions = FlagOptions(userDataDir: string, noSandbox: bool, disableDevShm: bool, extra: seq<string>)

  function LaunchFlags(o: FlagOptions): seq<string> {
    ["--remote-debugging-pipe", "--user-data-dir=" + o.userDataDir]
    + (if o.noSandbox then ["--no-sandbox"] else [])
    + (if o.disableDevShm then ["--disable-dev-shm-usage"] else [])
  }

  /** The argument list of one launch. */
  function Built(defaults: seq<string>, o: FlagOptions): seq<string> {
    Remaining(defaults) + MergedFlags(defaults, o.extra, MERGEABLE) + LaunchFlags(o) + Remaining(o.extra)
    + ["about:blank"]
  }

  method BuildFlags(defaults: seq<string>, o: FlagOptions) returns (args: seq<string>)
    ensures args == Built(defaults, o)
  {
    var merged, remaining := MergeFeatureSwitches(defaults, o.extra);
    args := [];
    for i := 0 to |defaults|
      invariant args == Remaining(defaults[..i])
    {
      assert defaults[..i + 1][..i] == defaults[..i];
      if !IsMerged(defaults[i]) {
        args := args + [defaults[i]];
      }
    }
    assert defaults[..|defaults|] == defaults;
    args := args + merged;
    ghost var front := args;
    args := args + ["--remote-debugging-pipe"];
    args := args + ["--user-data-dir=" + o.userDataDir];
    if o.noSandbox {
      args := args + ["--no-sandbox"];
    }
    if o.disableDevShm {
      args := args + ["--disable-dev-shm-usage"];
    }
    assert args == front + LaunchFlags(o);
    args := args + remaining;
    args := args + ["about:blank"];
  }

  // ---------------------------------------------------------------- names that cannot be confused

  lemma NameDiffers(f: string, name: string, k: nat)
    requires k < |name| && (k >= |f| || f[k] != name[k])
    ensures Name(f) != name && !Sets(f, name) && f != name
  {
  }

  lemma NoEqualsInNames(name: string)
    requires name in MERGEABLE
    ensures '=' !in name
  {
    if name == MERGEABLE[0] {
    } else if name == MERGEABLE[1] {
    } else {
    }
  }

  lemma NamesByLetters(name: string)
    requires name in MERGEABLE
    ensures |name| > 11 && name[0] == '-'
    ensures (name[2] == 'e' && name[3] == 'n')
            || (name[2] == 'd' && (name[10] == 'f' || (name[10] == 'b' && name[11] == 'l')))
  {
  }

  lemma MergeableNames(name: string)
    requires name in MERGEABLE
    ensures '=' !in name && Name(name) == name
  {
    NoEqualsInNames(name);
    NameIs(name, name);
  }

  /** A few letters tell `f` from every mergeable switch. */
  predicate Far(f: string) {
    && |f| > 3
    && (|| f[0] != '-'
        || (f[2] != 'd' && f[2] != 'e')
        || (f[2] == 'e' && f[3] != 'n')
        || (f[2] == 'd' && |f| > 11 && f[10] != 'f' && !(f[10] == 'b' && f[11] == 'l')))
  }

  lemma FarIsOther(f: string, name: string)
    requires Far(f) && name in MERGEABLE
    ensures Name(f) != name && !Sets(f, name) && f != name
  {
    NamesByLetters(name);
    if f[0] != '-' {
      NameDiffers(f, name, 0);
    } else if f[2] != name[2] {
      NameDiffers(f, name, 2);
    } else if f[2] == 'e' {
      NameDiffers(f, name, 3);
    } else if f[10] != name[10] {
      NameDiffers(f, name, 10);
    } else {
      NameDiffers(f, name, 11);
    }
  }

  lemma LaunchFlagsAreFar(o: FlagOptions)
    ensures forall i :: 0 <= i < |LaunchFlags(o)| ==> Far(LaunchFlags(o)[i])
    ensures Far("about:blank")
  {
  }

  lemma LaunchFlagsAreOthers(o: FlagOptions, name: string)
    requires name in MERGEABLE
    ensures Occurrences(LaunchFlags(o), name) == 0 && Occurrences(["about:blank"], name) == 0
    ensures Effective(LaunchFlags(o), name).None? && Effective(["about:blank"], name).None?
  {
    LaunchFlagsAreFar(o);
    forall i | 0 <= i < |LaunchFlags(o)| ensures Name(LaunchFlags(o)[i]) != name {
      FarIsOther(LaunchFlags(o)[i], name);
    }
    NoneOccurs(LaunchFlags(o), name);
    FarIsOther("about:blank", name);
    NoneOccurs(["about:blank"], name);
  }

  lemma {:induction false} NoneOccurs(args: seq<string>, name: string)
    requires forall i :: 0 <= i < |args| ==> Name(args[i]) != name
    ensures Occurrences(args, name) == 0 && Effective(args, name) == None
  {
    if args != [] {
      NoneOccurs(args[..|args| - 1], name);
    }
  }

  // ---------------------------------------------------------------- what is left after merging

  lemma MergedName(f: string)
    ensures IsMerged(f) <==> Name(f) in MERGEABLE && f != Name(f)
  {
    forall i | 0 <= i < |MERGEABLE| ensures Sets(f, MERGEABLE[i]) <==> Name(f) == MERGEABLE[i] && f != MERGEABLE[i] {
      MergeableNames(MERGEABLE[i]);
      SetsIff(f, MERGEABLE[i]);
    }
  }

  /** Switches that are not mergeable keep their reading. */
  lemma {:induction false} RemainingKeepsOthers(flags: seq<string>, name: string)
    requires name !in MERGEABLE
    ensures Effective(Remaining(flags), name) == Effective(flags, name)
  {
    if flags != [] {
      var n := |flags| - 1;
      RemainingKeepsOthers(flags[..n], name);
      MergedName(flags[n]);
      EffectiveConcat(Remaining(flags[..n]), if IsMerged(flags[n]) then [] else [flags[n]], name);
    }
  }

  function Bare(flags: seq<string>, name: string): nat {
    if flags == [] then 0
    else
      var n := |flags| - 1;
      Bare(flags[..n], name) + if flags[n] == name then 1 else 0
  }

  /** Of a mergeable switch only bare occurrences, without an equals sign, are left. */
  lemma {:induction false} RemainingKeepsBare(flags: seq<string>, name: string)
    requires name in MERGEABLE
    ensures Occurrences(Remaining(flags), name) == Bare(flags, name)
    ensures Effective(Remaining(flags), name) == if Bare(flags, name) > 0 then Some("") else None
  {
    if flags != [] {
      var n := |flags| - 1;
      RemainingKeepsBare(flags[..n], name);
      MergedName(flags[n]);
      MergeableNames(name);
      EffectiveConcat(Remaining(flags[..n]), if IsMerged(flags[n]) then [] else [flags[n]], name);
    }
  }

  // ---------------------------------------------------------------- the merged flags

  lemma {:induction false} AddPartsMembers(values: seq<string>, parts: seq<string>, x: string)
    ensures x in AddParts(values, parts) <==> x in values || x in parts
  {
    if parts != [] {
      var n := |parts| - 1;
      AddPartsMembers(values, parts[..n], x);
      AddPartsMembers(values, parts[..n], parts[n]);
      assert parts == parts[..n] + [parts[n]];
    }
  }

  /** `x` is one of the comma-separated values that some flag gives the switch. */
  ghost predicate GivenBy(flags: seq<string>, name: string, x: string) {
    exists i :: 0 <= i < |flags| && Sets(flags[i], name) && x in Split(flags[i][|name| + 1..], ',')
  }

  lemma {:induction false} AddSettingsMembers(values: seq<string>, extra: seq<string>, name: string, x: string)
    ensures x in AddSettings(values, extra, name) <==> x in values || GivenBy(extra, name, x)
  {
    if extra != [] {
      var n := |extra| - 1;
      AddSettingsMembers(values, extra[..n], name, x);
      assert GivenBy(extra, name, x) <==>
             GivenBy(extra[..n], name, x) || (Sets(extra[n], name) && x in Split(extra[n][|name| + 1..], ',')) by {
        if GivenBy(extra[..n], name, x) {
          var i :| 0 <= i < n && Sets(extra[..n][i], name) && x in Split(extra[..n][i][|name| + 1..], ',');
          assert Sets(extra[i], name);
        }
        if GivenBy(extra, name, x) {
          var i :| 0 <= i < |extra| && Sets(extra[i], name) && x in Split(extra[i][|name| + 1..], ',');
          assert i < n ==> Sets(extra[..n][i], name);
        }
      }
      if Sets(extra[n], name) {
        AddPartsMembers(AddSettings(values, extra[..n], name), Split(extra[n][|name| + 1..], ','), x);
      }
    }
  }

  /** The built-in list sets the switch at most once, and always with an equals sign. */
  ghost predicate DefaultsFit(defaults: seq<string>, name: string) {
    && (forall i, j :: 0 <= i < j < |defaults| ==> !(Sets(defaults[i], name) && Sets(defaults[j], name)))
    && name !in defaults
  }

  lemma {:induction false} FirstIsAll(defaults: seq<string>, name: string, x: string)
    requires DefaultsFit(defaults, name)
    ensures GivenBy(defaults, name, x) <==>
            FirstSetting(defaults, name).Some? && x in Split(FirstSetting(defaults, name).value, ',')
  {
    if defaults != [] {
      var tail := defaults[1..];
      assert DefaultsFit(tail, name);
      FirstIsAll(tail, name, x);
      if Sets(defaults[0], name) {
        assert forall i :: 0 < i < |defaults| ==> !Sets(defaults[i], name);
      } else {
        assert GivenBy(defaults, name, x) <==> GivenBy(tail, name, x) by {
          if GivenBy(tail, name, x) {
            var i :| 0 <= i < |tail| && Sets(tail[i], name) && x in Split(tail[i][|name| + 1..], ',');
            assert Sets(defaults[i + 1], name);
          }
          if GivenBy(defaults, name, x) {
            var i :| 0 <= i < |defaults| && Sets(defaults[i], name) && x in Split(defaults[i][|name| + 1..], ',');
            assert Sets(tail[i - 1], name);
          }
        }
      }
    }
  }

  /** The merged values are exactly the union of the built-in ones and all the operator gives. */
  lemma MergedIsUnion(defaults: seq<string>, extra: seq<string>, name: string, x: string)
    requires DefaultsFit(defaults, name)
    ensures x in MergedValues(defaults, extra, name) <==> GivenBy(defaults, name, x) || GivenBy(extra, name, x)
  {
    var own := FirstSetting(defaults, name);
    AddSettingsMembers(if own.Some? then Split(own.value, ',') else [], extra, name, x);
    FirstIsAll(defaults, name, x);
  }

  ghost predicate NoCommas(values: seq<string>) {
    forall i :: 0 <= i < |values| ==> ',' !in values[i]
  }

  lemma {:induction false} AddPartsNoCommas(values: seq<string>, parts: seq<string>)
    requires NoCommas(values) && NoCommas(parts)
    ensures NoCommas(AddParts(values, parts))
  {
    if parts != [] {
      AddPartsNoCommas(values, parts[..|parts| - 1]);
    }
  }

  lemma {:induction false} AddSettingsNoCommas(values: seq<string>, extra: seq<string>, name: string)
    requires NoCommas(values)
    ensures NoCommas(AddSettings(values, extra, name))
  {
    if extra != [] {
      var n := |extra| - 1;
      AddSettingsNoCommas(values, extra[..n], name);
      if Sets(extra[n], name) {
        AddPartsNoCommas(AddSettings(values, extra[..n], name), Split(extra[n][|name| + 1..], ','));
      }
    }
  }

  lemma MergedFlagReads(defaults: seq<string>, extra: seq<string>, own: string, name: string)
    requires '=' !in own
    ensures var values := MergedValues(defaults, extra, own);
            var flag := MergedFlag(defaults, extra, own);
            && Occurrences(flag, name) == (if values != [] && own == name then 1 else 0)
            && Effective(flag, name) == (if values != [] && own == name then Some(Join(values, ',')) else None)
  {
    var values := MergedValues(defaults, extra, own);
    if values != [] {
      var f := own + "=" + Join(values, ',');
      assert own + "=" <= f;
      NameIs(own, f);
      assert f[|own| + 1..] == Join(values, ',');
    }
  }

  /** The merged part of the command line sets each of the distinct switches `names` at most once. */
  lemma {:induction false} MergedFlagsRead(defaults: seq<string>, extra: seq<string>, names: seq<string>, name: string)
    requires NoDup(names) && forall i :: 0 <= i < |names| ==> '=' !in names[i]
    ensures var values := MergedValues(defaults, extra, name);
            var merged := MergedFlags(defaults, extra, names);
            && Occurrences(merged, name) == (if name in names && values != [] then 1 else 0)
            && Effective(merged, name) == (if name in names && values != [] then Some(Join(values, ',')) else None)
  {
    if names != [] {
      var n := |names| - 1;
      MergedFlagsRead(defaults, extra, names[..n], name);
      MergedFlagReads(defaults, extra, names[n], name);
      EffectiveConcat(MergedFlags(defaults, extra, names[..n]), MergedFlag(defaults, extra, names[n]), name);
      assert name in names <==> name in names[..n] || name == names[n];
    }
  }

  lemma MergeableAreDistinct()
    ensures NoDup(MERGEABLE) && forall i :: 0 <= i < |MERGEABLE| ==> '=' !in MERGEABLE[i]
  {
    assert MERGEABLE[0][2] != MERGEABLE[1][2] && MERGEABLE[2][2] != MERGEABLE[1][2];
    assert MERGEABLE[0][10] != MERGEABLE[2][10];
    forall i | 0 <= i < |MERGEABLE| ensures '=' !in MERGEABLE[i] {
      NoEqualsInNames(MERGEABLE[i]);
    }
  }

  // ---------------------------------------------------------------- the whole command line

  /** The reading of the built list, part by part from the end. */
  lemma BuiltReads(defaults: seq<string>, o: FlagOptions, name: string)
    ensures var a := Effective(Remaining(defaults), name);
            var b := Effective(MergedFlags(defaults, o.extra, MERGEABLE), name);
            var c := Effective(LaunchFlags(o), name);
            var d := Effective(Remaining(o.extra), name);
            var e := Effective(["about:blank"], name);
            Effective(Built(defaults, o), name)
            == if e.Some? then e else if d.Some? then d else if c.Some? then c else if b.Some? then b else a
    ensures Occurrences(Built(defaults, o), name)
         == Occurrences(Remaining(defaults), name) + Occurrences(MergedFlags(defaults, o.extra, MERGEABLE), name)
            + Occurrences(LaunchFlags(o), name) + Occurrences(Remaining(o.extra), name)
            + Occurrences(["about:blank"], name)
  {
    var a, b := Remaining(defaults), MergedFlags(defaults, o.extra, MERGEABLE);
    var c, d := LaunchFlags(o), Remaining(o.extra);
    EffectiveConcat(a, b, name);
    EffectiveConcat(a + b, c, name);
    EffectiveConcat(a + b + c, d, name);
    EffectiveConcat(a + b + c + d, ["about:blank"], name);
  }

  lemma {:induction false} NoBare(flags: seq<string>, name: string)
    ensures Bare(flags, name) > 0 <==> name in flags
  {
    if flags != [] {
      var n := |flags| - 1;
      NoBare(flags[..n], name);
      assert flags == flags[..n] + [flags[n]];
    }
  }

  /**
   A mergeable switch, for every operator list: it occurs once for the merged value plus once for each
   bare operator occurrence; without bare ones its value splits into exactly the merged values, and
   with one the operator's bare switch silences it.
   */
  lemma MergeableSwitch(defaults: seq<string>, o: FlagOptions, name: string)
    requires name in MERGEABLE && DefaultsFit(defaults, name)
    ensures var values := MergedValues(defaults, o.extra, name);
            var built := Built(defaults, o);
            && Occurrences(built, name) == (if values == [] then 0 else 1) + Bare(o.extra, name)
            && (name !in o.extra && values != [] ==>
                  Effective(built, name) == Some(Join(values, ',')) && Split(Join(values, ','), ',') == values)
            && (name !in o.extra && values == [] ==> Effective(built, name).None?)
            && (name in o.extra ==> Effective(built, name) == Some(""))
  {
    BuiltReads(defaults, o, name);
    RemainingKeepsBare(defaults, name);
    RemainingKeepsBare(o.extra, name);
    NoBare(defaults, name);
    NoBare(o.extra, name);
    MergeableAreDistinct();
    MergedFlagsRead(defaults, o.extra, MERGEABLE, name);
    LaunchFlagsAreOthers(o, name);
    var own := FirstSetting(defaults, name);
    AddSettingsNoCommas(if own.Some? then Split(own.value, ',') else [], o.extra, name);
    if MergedValues(defaults, o.extra, name) != [] {
      SplitJoin(MergedValues(defaults, o.extra, name), ',');
    }
  }

  lemma UnitedValues(defaults: seq<string>, o: FlagOptions, name: string, x: string)
    requires name in MERGEABLE && DefaultsFit(defaults, name) && name !in o.extra
    ensures var built := Built(defaults, o);
            var read := Effective(built, name);
            && Occurrences(built, name) <= 1
            && ((read.Some? && x in Split(read.value, ','))
                <==> GivenBy(defaults, name, x) || GivenBy(o.extra, name, x))
  {
    MergeableSwitch(defaults, o, name);
    MergedIsUnion(defaults, o.extra, name, x);
    NoBare(o.extra, name);
  }

  /** Every other switch reads as in the built-in flags, then the launch flags, then the operator's. */
  lemma OtherSwitch(defaults: seq<string>, o: FlagOptions, name: string)
    requires name !in MERGEABLE
    ensures Effective(Built(defaults, o), name)
         == Effective(defaults + LaunchFlags(o) + o.extra + ["about:blank"], name)
  {
    BuiltReads(defaults, o, name);
    RemainingKeepsOthers(defaults, name);
    RemainingKeepsOthers(o.extra, name);
    MergeableAreDistinct();
    MergedFlagsRead(defaults, o.extra, MERGEABLE, name);
    EffectiveConcat(defaults, LaunchFlags(o), name);
    EffectiveConcat(defaults + LaunchFlags(o), o.extra, name);
    EffectiveConcat(defaults + LaunchFlags(o) + o.extra, ["about:blank"], name);
  }

  // ---------------------------------------------------------------- the built-in flags

  // The built-in list in its order: two stretches, its one feature switch, and the rest.  Long texts in
  // this project are written as a sum, because the solver does not reach the first letters of a literal of
  // more than about fifty.

  const EARLY_FLAGS: seq<string> := [
    "--headless",
    "--allow-pre-commit-input",
    "--disable-background-networking",
    "--disable-background-timer-throttling",
    "--disable-backgrounding-occluded-windows"
  ]

  const MIDDLE_FLAGS: seq<string> := [
    "--disable-renderer-backgrounding",
    "--disable-breakpad",
    "--disable-crash-reporter",
    "--disable-client-side-phishing-detection",
    "--disable-component" + "-extensions-with-background-pages",
    "--disable-component-update",
    "--disable-default-apps",
    "--disable-extensions",
    "--disable-hang-monitor",
    "--disable-ipc-flooding-protection",
    "--disable-popup-blocking",
    "--disable-prompt-on-repost",
    "--disable-session-crashed-bubble",
    "--hide-crash-restore-bubble",
    "--disable-sync"
  ]

  const FEATURES_FLAG: string :=
    "--disable-features=" + "Translate,MediaRouter,DialMediaRouteProvider,OptimizationHints,"
    + "AcceptCHFrame,DestroyProfileOnBrowserClose"

  const LATE_FLAGS: seq<string> := [
    "--export-tagged-pdf",
    "--force-color-profile=srgb",
    "--metrics-recording-only",
    "--mute-audio",
    "--no-default-browser-check",
    "--no-first-run",
    "--password-store=basic",
    "--use-mock-keychain",
    "--window-size=1280,720"
  ]

  const DEFAULT_FLAGS: seq<string> := EARLY_FLAGS + MIDDLE_FLAGS + [FEATURES_FLAG] + LATE_FLAGS

  ghost predicate AllFar(flags: seq<string>) {
    forall i :: 0 <= i < |flags| ==> Far(flags[i])
  }

  lemma EarlyFlagsAreFar()
    ensures AllFar(EARLY_FLAGS)
  {
  }

  lemma MiddleFlagsAreFar()
    ensures AllFar(MIDDLE_FLAGS)
  {
  }

  lemma LateFlagsAreFar()
    ensures AllFar(LATE_FLAGS)
  {
  }

  /** The built-in list meets what the merge needs of it. */
  lemma BuiltInFlagsFit(name: string)
    requires name in MERGEABLE
    ensures DefaultsFit(DEFAULT_FLAGS, name)
  {
    EarlyFlagsAreFar();
    MiddleFlagsAreFar();
    LateFlagsAreFar();
    OneFeatureSwitch(EARLY_FLAGS + MIDDLE_FLAGS, FEATURES_FLAG, LATE_FLAGS, name);
  }

  lemma OneFeatureSwitch(before: seq<string>, own: string, after: seq<string>, name: string)
    requires name in MERGEABLE && AllFar(before) && AllFar(after) && |own| > 30
    ensures DefaultsFit(before + [own] + after, name)
  {
    var all := before + [own] + after;
    forall i | 0 <= i < |all| && i != |before| ensures !Sets(all[i], name) && all[i] != name {
      FarIsOther(all[i], name);
    }
    MergeableAreShort(name);
  }

  lemma MergeableAreShort(name: string)
    requires name in MERGEABLE
    ensures |name| < 30
  {
  }

  /**
   The launched browser's feature switches, for every operator list that writes them with an equals
   sign: each occurs at most once, and the values it is read with are exactly the built-in ones and all
   the operator's.
   */
  lemma FeaturesAreUnited(o: FlagOptions, name: string, x: string)
    requires name in ["--disable-features", "--enable-features", "--disable-blink-features"] && name !in o.extra
    ensures var built := Built(DEFAULT_FLAGS, o);
            var read := Effective(built, name);
            && Occurrences(built, name) <= 1
            && ((read.Some? && x in Split(read.value, ','))
                <==> GivenBy(DEFAULT_FLAGS, name, x) || GivenBy(o.extra, name, x))
  {
    BuiltInFlagsFit(name);
    UnitedValues(DEFAULT_FLAGS, o, name, x);
  }

  // ---------------------------------------------------------------- order of the merged values

  /** Values are only ever added behind those there are, and none that is there is added. */
  lemma {:induction false} AddPartsAppends(values: seq<string>, parts: seq<string>)
    ensures values <= AddParts(values, parts)
    ensures NoDup(values) ==> NoDup(AddParts(values, parts))
  {
    if parts != [] {
      AddPartsAppends(values, parts[..|parts| - 1]);
    }
  }

  lemma {:induction false} AddSettingsAppends(values: seq<string>, extra: seq<string>, name: string)
    ensures values <= AddSettings(values, extra, name)
    ensures NoDup(values) ==> NoDup(AddSettings(values, extra, name))
  {
    if extra != [] {
      var n := |extra| - 1;
      AddSettingsAppends(values, extra[..n], name);
      if Sets(extra[n], name) {
        AddPartsAppends(AddSettings(values, extra[..n], name), Split(extra[n][|name| + 1..], ','));
      }
    }
  }

  /**
   The merged values keep the order: the built-in ones first, then what the operator's flags add, flag by
   flag and value by value; if no built-in value is there twice, none is.
   */
  lemma MergedInOrder(defaults: seq<string>, extra: seq<string>, more: string, name: string)
    ensures var own := FirstSetting(defaults, name);
            var builtIn := if own.Some? then Split(own.value, ',') else [];
            var values := MergedValues(defaults, extra, name);
            && builtIn <= values <= MergedValues(defaults, extra + [more], name)
            && (NoDup(builtIn) ==> NoDup(values))
  {
    var own := FirstSetting(defaults, name);
    var builtIn := if own.Some? then Split(own.value, ',') else [];
    AddSettingsAppends(builtIn, extra, name);
    assert (extra + [more])[..|extra|] == extra;
    if Sets(more, name) {
      AddPartsAppends(MergedValues(defaults, extra, name), Split(more[|name| + 1..], ','));
    }
  }

  /** Within one flag too: the values of a longer list of parts start with those of a shorter one. */
  lemma PartsInOrder(values: seq<string>, parts: seq<string>, x: string)
    ensures AddParts(values, []) == values
    ensures var before := AddParts(values, parts);
            AddParts(values, parts + [x]) == if x in before then before else before + [x]
  {
    assert (parts + [x])[..|parts|] == parts;
  }

  // ---------------------------------------------------------------- the launch flags

  lemma {:induction false} RemainingMembers(flags: seq<string>, x: string)
    requires !IsMerged(x)
    ensures x in Remaining(flags) <==> x in flags
  {
    if flags != [] {
      var n := |flags| - 1;
      RemainingMembers(flags[..n], x);
      assert flags == flags[..n] + [flags[n]];
    }
  }

  lemma {:induction false} MergedMembers(defaults: seq<string>, extra: seq<string>, names: seq<string>, x: string)
    requires x in MergedFlags(defaults, extra, names)
    ensures exists i :: 0 <= i < |names| && Sets(x, names[i])
  {
    var n := |names| - 1;
    if x in MergedFlags(defaults, extra, names[..n]) {
      MergedMembers(defaults, extra, names[..n], x);
      var i :| 0 <= i < n && Sets(x, names[..n][i]);
      assert Sets(x, names[i]);
    } else {
      assert Sets(x, names[n]);
    }
  }

  /** A flag that no feature switch can be mistaken for is there because someone put it there. */
  lemma FlagIsThereIff(defaults: seq<string>, o: FlagOptions, x: string)
    requires Far(x)
    ensures x in Built(defaults, o) <==> x in defaults || x in LaunchFlags(o) || x in o.extra || x == "about:blank"
  {
    forall i | 0 <= i < |MERGEABLE| ensures !Sets(x, MERGEABLE[i]) {
      FarIsOther(x, MERGEABLE[i]);
    }
    RemainingMembers(defaults, x);
    RemainingMembers(o.extra, x);
    if x in MergedFlags(defaults, o.extra, MERGEABLE) {
      MergedMembers(defaults, o.extra, MERGEABLE, x);
    }
  }

  lemma LaunchFlagsAre(o: FlagOptions)
    ensures "--no-sandbox" in LaunchFlags(o) <==> o.noSandbox
    ensures "--disable-dev-shm-usage" in LaunchFlags(o) <==> o.disableDevShm
    ensures "--remote-debugging-pipe" in LaunchFlags(o) && ("--user-data-dir=" + o.userDataDir) in LaunchFlags(o)
  {
    var flags := LaunchFlags(o);
    assert flags[0] == "--remote-debugging-pipe" && flags[1] == "--user-data-dir=" + o.userDataDir;
    assert flags[0][2] == 'r' && flags[1][2] == 'u';
    assert "--no-sandbox"[2] == 'n' && "--disable-dev-shm-usage"[2] == 'd';
    assert o.noSandbox ==> flags[2] == "--no-sandbox";
    assert o.disableDevShm ==> flags[if o.noSandbox then 3 else 2] == "--disable-dev-shm-usage";
  }

  /**
   What a launch adds to the built-in and the operator's flags: the sandbox is off, and shared memory on
   disk, exactly when asked; the pipe and the profile directory are always given, and the last argument is
   an empty page.
   */
  lemma LaunchAdds(defaults: seq<string>, o: FlagOptions)
    ensures var built := Built(defaults, o);
            && ("--no-sandbox" in built <==> o.noSandbox || "--no-sandbox" in defaults || "--no-sandbox" in o.extra)
            && ("--disable-dev-shm-usage" in built
                <==> o.disableDevShm || "--disable-dev-shm-usage" in defaults || "--disable-dev-shm-usage" in o.extra)
            && "--remote-debugging-pipe" in built && ("--user-data-dir=" + o.userDataDir) in built
            && built[|built| - 1] == "about:blank"
  {
    LaunchFlagsAre(o);
    FarLaunchFlag("--no-sandbox");
    FarLaunchFlag("--disable-dev-shm-usage");
    FlagIsThereIff(defaults, o, "--no-sandbox");
    FlagIsThereIff(defaults, o, "--disable-dev-shm-usage");
    AnyLaunchFlag(defaults, o, "--remote-debugging-pipe");
    AnyLaunchFlag(defaults, o, "--user-data-dir=" + o.userDataDir);
  }

  lemma AnyLaunchFlag(defaults: seq<string>, o: FlagOptions, x: string)
    requires x in LaunchFlags(o)
    ensures x in Built(defaults, o)
  {
  }

  lemma FarLaunchFlag(x: string)
    requires x == "--no-sandbox" || x == "--disable-dev-shm-usage"
    ensures Far(x) && x != "about:blank"
  {
    assert x[0] == '-' && "about:blank"[0] == 'a';
  }
}
