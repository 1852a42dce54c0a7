/** The device-control helpers of phone_agent/adb/device.py: the device-id
    check and the adb command prefix built on it, the default swipe
    duration, the package lookup and launch fallbacks of `launch_app`, and
    the focus-line scan of `get_current_app`. The adb commands themselves
    are the `Run` outcomes the caller passes in. */
module Device {
  import opened Util

  // ---------------------------------------------------------------------------
  // Device ids (lines 495-522)
  // ---------------------------------------------------------------------------

  /** `\d{lo,hi}` over the whole of `s`. */
  predicate DigitRun(s: string, lo: nat, hi: nat) {
    lo <= |s| <= hi && forall i :: 0 <= i < |s| ==> IsDigit(s[i])
  }

  /** `\d+` over the whole of `s`. */
  predicate Digits(s: string) {
    |s| >= 1 && forall i :: 0 <= i < |s| ==> IsDigit(s[i])
  }

  /** `localhost:\d{1,5}` */
  predicate LocalhostForm(s: string) {
    StartsWith(s, "localhost:") && DigitRun(s[10..], 1, 5)
  }

  /** `\d{1,3}\.\d{1,3}\.\d{1,3}\.\d{1,3}:\d{1,5}`: four dot-separated parts,
      the last of them an octet and a port around one colon. */
  predicate Ipv4Form(s: string) {
    var parts := Split(s, '.');
    && |parts| == 4
    && DigitRun(parts[0], 1, 3) && DigitRun(parts[1], 1, 3) && DigitRun(parts[2], 1, 3)
    && |Split(parts[3], ':')| == 2
    && DigitRun(Split(parts[3], ':')[0], 1, 3) && DigitRun(Split(parts[3], ':')[1], 1, 5)
  }

  /** `emulator-\d+` */
  predicate EmulatorForm(s: string) {
    StartsWith(s, "emulator-") && Digits(s[9..])
  }

  predicate SerialChar(c: char) {
    'A' <= c <= 'Z' || 'a' <= c <= 'z' || IsDigit(c) || c == '_' || c == '-'
  }

  /** `[A-Za-z0-9_-]+`, a serial number. */
  predicate SerialForm(s: string) {
    |s| >= 1 && forall i :: 0 <= i < |s| ==> SerialChar(s[i])
  }

  /** `device_\d+` */
  predicate DeviceNumberForm(s: string) {
    StartsWith(s, "device_") && Digits(s[7..])
  }

  /** An id that is one of the five accepted forms from end to end. */
  predicate IsValidDeviceId(s: string) {
    LocalhostForm(s) || Ipv4Form(s) || EmulatorForm(s) || SerialForm(s) || DeviceNumberForm(s)
  }

  /** `_is_valid_device_id` as written: `re.match` with patterns ending in
      `$`, which also matches just before a final line break. */
  predicate IsValidDeviceIdAsWritten(s: string) {
    IsValidDeviceId(s) || (|s| > 0 && s[|s| - 1] == '\n' && IsValidDeviceId(s[..|s| - 1]))
  }

  /** The characters an accepted id is made of. */
  predicate IdChar(c: char) {
    SerialChar(c) || c == ':' || c == '.'
  }

  /** A text that is a prefix made of serial characters followed by `\d+`
      is a serial number. */
  lemma PrefixedDigitsSerial(s: string, p: string)
    requires StartsWith(s, p) && Digits(s[|p|..])
    requires forall k :: 0 <= k < |p| ==> SerialChar(p[k])
    ensures SerialForm(s)
  {
    forall i | 0 <= i < |s| ensures SerialChar(s[i]) {
      if i < |p| {
        assert s[i] == s[..|p|][i];
      } else {
        assert s[i] == s[|p|..][i - |p|];
      }
    }
  }

  /** `emulator-N` and `device_N` are serial numbers already, so only three
      of the five patterns decide anything. */
  lemma RedundantForms(s: string)
    ensures EmulatorForm(s) ==> SerialForm(s)
    ensures DeviceNumberForm(s) ==> SerialForm(s)
    ensures IsValidDeviceId(s) <==> LocalhostForm(s) || Ipv4Form(s) || SerialForm(s)
  {
    if EmulatorForm(s) {
      var p := "emulator-";
      assert forall k :: 0 <= k < |p| ==> SerialChar(p[k]);
      PrefixedDigitsSerial(s, p);
    }
    if DeviceNumberForm(s) {
      var p := "device_";
      assert forall k :: 0 <= k < |p| ==> SerialChar(p[k]);
      PrefixedDigitsSerial(s, p);
    }
  }

  /** Each character of an IPv4 form is a digit, a dot or the colon. */
  lemma Ipv4Chars(s: string, i: nat)
    requires Ipv4Form(s) && i < |s|
    ensures IdChar(s[i])
  {
    if s[i] != '.' {
      var parts := Split(s, '.');
      SplitKeepsChars(s, '.', i);
      var j :| 0 <= j < |parts| && s[i] in parts[j];
      var k :| 0 <= k < |parts[j]| && parts[j][k] == s[i];
      if j == 3 && s[i] != ':' {
        SplitKeepsChars(parts[3], ':', k);
        var tail := Split(parts[3], ':');
        var m :| 0 <= m < |tail| && s[i] in tail[m];
        var n :| 0 <= n < |tail[m]| && tail[m][n] == s[i];
      }
    }
  }

  /** Each character of a text beginning with `p` is one of `p`'s or one of
      the rest's. */
  lemma PrefixedChars(s: string, p: string, i: nat)
    requires StartsWith(s, p) && i < |s|
    ensures i < |p| ==> s[i] == p[i]
    ensures i >= |p| ==> s[i] == s[|p|..][i - |p|]
  {
    if i < |p| {
      assert s[i] == s[..|p|][i];
    }
  }

  /** An accepted id is made of letters, digits, `_`, `-`, `:` and `.`
      only: no white space, quote or shell metacharacter gets through. */
  lemma ValidIdCharacters(s: string)
    requires IsValidDeviceId(s)
    ensures forall i :: 0 <= i < |s| ==> IdChar(s[i])
  {
    RedundantForms(s);
    forall i | 0 <= i < |s| ensures IdChar(s[i]) {
      if SerialForm(s) {
      } else if LocalhostForm(s) {
        var p := "localhost:";
        assert forall k :: 0 <= k < |p| ==> IdChar(p[k]);
        PrefixedChars(s, p, i);
      } else {
        Ipv4Chars(s, i);
      }
    }
  }

  /** The `$` anchor lets a serial number with a trailing line break through,
      which none of the accepted forms contains. */
  lemma TrailingLineBreakAccepted()
    ensures IsValidDeviceIdAsWritten("ABCD1234\n")
    ensures !IsValidDeviceId("ABCD1234\n")
  {
    var s := "ABCD1234\n";
    assert SerialForm(s[..|s| - 1]) by {
      assert s[..|s| - 1] == "ABCD1234";
    }
    assert !IdChar(s[8]);
    if IsValidDeviceId(s) {
      ValidIdCharacters(s);
    }
  }

  // ---------------------------------------------------------------------------
  // The adb prefix (lines 480-492)
  // ---------------------------------------------------------------------------

  /** `_get_adb_prefix`: no id (or an empty one) addresses the default
      device; any other id must pass the check and is given with `-s`. */
  function AdbPrefix(deviceId: Option<string>): (r: Result<seq<string>>)
    ensures r.Err? <==> deviceId.Some? && deviceId.value != [] && !IsValidDeviceId(deviceId.value)
    ensures r.Err? ==> r.msg == "Invalid device_id format: " + deviceId.value
    ensures r.Ok? && deviceId.Some? && deviceId.value != [] ==> r.value == ["adb", "-s", deviceId.value]
    ensures r.Ok? && (deviceId.None? || deviceId.value == []) ==> r.value == ["adb"]
  {
    if deviceId.Some? && deviceId.value != [] then
      if !IsValidDeviceId(deviceId.value) then Err("Invalid device_id format: " + deviceId.value)
      else Ok(["adb", "-s", deviceId.value])
    else Ok(["adb"])
  }

  /** Every argument of a prefix `AdbPrefix` hands out is made of id
      characters, so the prefix never carries anything to a shell. */
  lemma PrefixArgumentsPlain(deviceId: Option<string>)
    requires AdbPrefix(deviceId).Ok?
    ensures forall a :: a in AdbPrefix(deviceId).value ==> forall k :: 0 <= k < |a| ==> IdChar(a[k])
  {
    var adb, flag := "adb", "-s";
    assert forall k :: 0 <= k < |adb| ==> IdChar(adb[k]);
    assert forall k :: 0 <= k < |flag| ==> IdChar(flag[k]);
    if deviceId.Some? && deviceId.value != [] {
      ValidIdCharacters(deviceId.value);
    }
  }

  // ---------------------------------------------------------------------------
  // Swipe duration (lines 222-230)
  // ---------------------------------------------------------------------------

  const MinSwipeDurationMs := 1000
  const MaxSwipeDurationMs := 2000

  /** The squared distance of a swipe. */
  function DistanceSquared(sx: int, sy: int, ex: int, ey: int): (d: nat) {
    (sx - ex) * (sx - ex) + (sy - ey) * (sy - ey)
  }

  /** `int(dist_sq / 1000)` clamped to [1000, 2000] milliseconds. */
  function DurationForDistance(dsq: nat): (r: int)
    ensures MinSwipeDurationMs <= r <= MaxSwipeDurationMs
    ensures r == MinSwipeDurationMs <==> dsq < 1001000
    ensures r == MaxSwipeDurationMs <==> dsq >= 2000000
    ensures 1001000 <= dsq < 2000000 ==> r * 1000 <= dsq < (r + 1) * 1000
  {
    Max(MinSwipeDurationMs, Min(dsq / 1000, MaxSwipeDurationMs))
  }

  /** The duration `swipe` uses: the one given, else one from the distance. */
  function SwipeDuration(sx: int, sy: int, ex: int, ey: int, given: Option<int>): (r: int)
    ensures given.Some? ==> r == given.value
    ensures given.None? ==> MinSwipeDurationMs <= r <= MaxSwipeDurationMs
  {
    match given
    case Some(d) => d
    case None => DurationForDistance(DistanceSquared(sx, sy, ex, ey))
  }

  /** A longer swipe never gets a shorter default duration. */
  lemma DurationMonotone(d1: nat, d2: nat)
    requires d1 <= d2
    ensures DurationForDistance(d1) <= DurationForDistance(d2)
  {
    assert d1 / 1000 <= d2 / 1000;
  }

  /** Swiping back the same way takes as long. */
  lemma SwipeDurationSymmetric(sx: int, sy: int, ex: int, ey: int)
    ensures SwipeDuration(sx, sy, ex, ey, None) == SwipeDuration(ex, ey, sx, sy, None)
  {
    assert (sx - ex) * (sx - ex) == (ex - sx) * (ex - sx);
    assert (sy - ey) * (sy - ey) == (ey - sy) * (ey - sy);
  }

  // ---------------------------------------------------------------------------
  // launch_app (lines 322-477)
  // ---------------------------------------------------------------------------

  /** One entry of `data/app_config.json` as `launch_app` reads it: a missing
      `display_name_en` reads as "" and missing aliases as none. */
  datatype AppConfig = AppConfig(displayName: Option<string>, displayNameEn: string, aliases: seq<string>,
                                 packageName: Option<string>)

  /** The entry names the app: by its display name exactly, or by its English
      name or one of its aliases ignoring case. */
  predicate NamesApp(app: AppConfig, name: string) {
    || app.displayName == Some(name)
    || Lower(app.displayNameEn) == Lower(name)
    || exists k :: 0 <= k < |app.aliases| && Lower(app.aliases[k]) == Lower(name)
  }

  /** The `package_name` of the first entry that names the app; None when no
      entry does or that entry has none. */
  function ConfigPackage(configs: seq<AppConfig>, name: string): (r: Option<string>)
    ensures (forall j :: 0 <= j < |configs| ==> !NamesApp(configs[j], name)) ==> r.None?
    ensures forall j :: (0 <= j < |configs| && NamesApp(configs[j], name)
                         && forall k :: 0 <= k < j ==> !NamesApp(configs[k], name)) ==> r == configs[j].packageName
  {
    if |configs| == 0 then None
    else if NamesApp(configs[0], name) then configs[0].packageName
    else
      var r := ConfigPackage(configs[1..], name);
      assert forall j :: 1 <= j < |configs| ==> configs[j] == configs[1..][j - 1];
      r
  }

  /** The package `launch_app` starts: the configured one, else the entry of
      the built-in table; an empty name counts as none. */
  function ResolvePackage(configs: seq<AppConfig>, packages: map<string, string>, name: string): (r: Option<string>)
    ensures r.Some? ==> r.value != []
    ensures ConfigPackage(configs, name).Some? && ConfigPackage(configs, name).value != [] ==> r == ConfigPackage(configs, name)
    ensures r.None? <==> (ConfigPackage(configs, name).None? || ConfigPackage(configs, name).value == [])
                         && (name !in packages || packages[name] == [])
  {
    var p := ConfigPackage(configs, name);
    if p.Some? && p.value != [] then p
    else if name in packages && packages[name] != [] then Some(packages[name])
    else None
  }

  /** An app no configuration entry names is looked up in the built-in
      table. */
  lemma UnconfiguredUsesTable(configs: seq<AppConfig>, packages: map<string, string>, name: string)
    requires forall j :: 0 <= j < |configs| ==> !NamesApp(configs[j], name)
    ensures ResolvePackage(configs, packages, name) == if name in packages && packages[name] != [] then Some(packages[name]) else None
  {
  }

  /** The activity manager started the app: exit code 0 and no "Error" on
      standard error. */
  predicate AmStarted(am: Run) {
    am.Exited? && am.code == 0 && !Contains(am.stderr, "Error")
  }

  /** The monkey fallback started the app. */
  predicate MonkeyStarted(monkey: Run) {
    monkey.Exited? && monkey.code == 0
  }

  /** `launch_app` after the connection check: find the package (config
      entries first, in file order), then try `am start`, then `monkey`. */
  method LaunchApp(appName: string, configs: seq<AppConfig>, packages: map<string, string>, am: Run, monkey: Run)
    returns (launched: bool)
    ensures launched <==> ResolvePackage(configs, packages, appName).Some? && (AmStarted(am) || MonkeyStarted(monkey))
  {
    var package: Option<string> := None;
    var i := 0;
    var found := false;
    while i < |configs| && !found
      invariant 0 <= i <= |configs|
      invariant !found ==> package.None? && forall j :: 0 <= j < i ==> !NamesApp(configs[j], appName)
      invariant found ==> package == ConfigPackage(configs, appName)
    {
      if NamesApp(configs[i], appName) {
        package := configs[i].packageName;
        found := true;
      }
      i := i + 1;
    }
    if package.None? || package.value == [] {
      package := if appName in packages then Some(packages[appName]) else None;
    }
    if package.None? || package.value == [] {
      return false;
    }
    if AmStarted(am) {
      return true;
    }
    return MonkeyStarted(monkey);
  }

  // ---------------------------------------------------------------------------
  // get_current_app (lines 18-45)
  // ---------------------------------------------------------------------------

  /** What `get_current_app` reports when no known app has the focus. */
  const Desktop := "系统桌面"

  /** A line of `dumpsys window` that names the focused window or app. */
  predicate FocusLine(line: string) {
    Contains(line, "mCurrentFocus") || Contains(line, "mFocusedApp")
  }

  /** The first app of the table whose package occurs in `line`. */
  function AppInLine(line: string, apps: seq<(string, string)>): (r: Option<string>)
    ensures r.Some? <==> exists k :: 0 <= k < |apps| && Contains(line, apps[k].1)
    ensures r.Some? ==> exists k :: 0 <= k < |apps| && Contains(line, apps[k].1) && apps[k].0 == r.value
                                   && forall j :: 0 <= j < k ==> !Contains(line, apps[j].1)
  {
    if |apps| == 0 then None
    else if Contains(line, apps[0].1) then Some(apps[0].0)
    else
      var r := AppInLine(line, apps[1..]);
      assert forall k :: 1 <= k < |apps| ==> apps[k] == apps[1..][k - 1];
      r
  }

  /** The app of the first focus line that holds a known package. */
  function AppInLines(lines: seq<string>, apps: seq<(string, string)>): (r: Option<string>)
    ensures r.Some? <==> exists i, k :: 0 <= i < |lines| && 0 <= k < |apps| && FocusLine(lines[i]) && Contains(lines[i], apps[k].1)
    ensures r.Some? ==> exists i, k :: 0 <= i < |lines| && 0 <= k < |apps| && FocusLine(lines[i])
                                       && Contains(lines[i], apps[k].1) && apps[k].0 == r.value
  {
    if |lines| == 0 then None
    else
      var here := if FocusLine(lines[0]) then AppInLine(lines[0], apps) else None;
      if here.Some? then here
      else
        var r := AppInLines(lines[1..], apps);
        assert forall i :: 1 <= i < |lines| ==> lines[i] == lines[1..][i - 1];
        r
  }

  /** A focus line that names a known package. */
  predicate KnownFocus(line: string, apps: seq<(string, string)>) {
    FocusLine(line) && AppInLine(line, apps).Some?
  }

  /** No line before `i` is a focus line naming a known package. */
  predicate NoneBefore(lines: seq<string>, apps: seq<(string, string)>, i: int)
    requires 0 <= i <= |lines|
  {
    forall j :: 0 <= j < i ==> !KnownFocus(lines[j], apps)
  }

  /** A line that is not a known focus line extends `NoneBefore` by one. */
  lemma NoneBeforeShift(lines: seq<string>, apps: seq<(string, string)>, i: int)
    requires 0 <= i < |lines| - 1 && !KnownFocus(lines[0], apps) && NoneBefore(lines[1..], apps, i)
    ensures lines[i + 1] == lines[1..][i] && NoneBefore(lines, apps, i + 1)
  {
    assert forall j :: 1 <= j < i + 1 ==> lines[j] == lines[1..][j - 1];
  }

  /** The app `AppInLines` reports is the one of the first focus line that
      names a known package. */
  lemma {:induction false} FirstFocusLine(lines: seq<string>, apps: seq<(string, string)>)
    ensures AppInLines(lines, apps).Some? ==>
      exists i :: 0 <= i < |lines| && FocusLine(lines[i]) && AppInLine(lines[i], apps) == AppInLines(lines, apps)
                  && NoneBefore(lines, apps, i)
  {
    if |lines| > 0 {
      var here := if FocusLine(lines[0]) then AppInLine(lines[0], apps) else None;
      if here.Some? {
        assert FocusLine(lines[0]) && AppInLine(lines[0], apps) == AppInLines(lines, apps) && NoneBefore(lines, apps, 0);
      } else {
        var rest := lines[1..];
        var r := AppInLines(rest, apps);
        assert AppInLines(lines, apps) == r;
        FirstFocusLine(rest, apps);
        if r.Some? {
          var i :| 0 <= i < |rest| && FocusLine(rest[i]) && AppInLine(rest[i], apps) == r && NoneBefore(rest, apps, i);
          NoneBeforeShift(lines, apps, i);
        }
      }
    }
  }

  /** `get_current_app` on the output of `dumpsys window`, with the app table
      in its order: the app whose package a focus line shows, else the
      desktop. */
  function CurrentApp(output: string, apps: seq<(string, string)>): (r: string)
    ensures (forall i, k :: 0 <= i < |Split(output, '\n')| && 0 <= k < |apps| && FocusLine(Split(output, '\n')[i])
                            ==> !Contains(Split(output, '\n')[i], apps[k].1)) ==> r == Desktop
    ensures r != Desktop ==> exists i, k :: 0 <= i < |Split(output, '\n')| && 0 <= k < |apps| && FocusLine(Split(output, '\n')[i])
                                            && Contains(Split(output, '\n')[i], apps[k].1) && apps[k].0 == r
    ensures r != Desktop ==> AppInLines(Split(output, '\n'), apps) == Some(r)
  {
    var lines := Split(output, '\n');
    match AppInLines(lines, apps)
    case Some(name) => name
    case None => Desktop
  }
}
