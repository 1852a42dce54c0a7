/** The yadb helper: an on-device tool started through `app_process` that
    types arbitrary text and takes screenshots even of windows marked
    secure. Covers the `adb` command prefix, the cached "is yadb installed"
    probe, text typing with escaped spaces and the retried screenshot with
    its PNG check. */
module Yadb {
  import opened Util
  import Device
  import AutoReconnect

  /** Seconds a probe result stays in the cache. */
  const CacheTtl := 60

  /** Python's `str()` of an optional host or port. */
  function HostText(host: Option<string>): string {
    if host.Some? then host.value else "None"
  }

  function PortText(port: Option<int>): string {
    if port.Some? then IntToString(port.value) else "None"
  }

  /** `_build_adb_cmd`: a network serial (one with ':') is used as is;
      otherwise a non-empty host with a non-zero port forms the serial;
      otherwise a non-empty serial is used; otherwise the default device. */
  function BuildAdbCmd(deviceId: Option<string>, host: Option<string>, port: Option<int>): (r: seq<string>)
    ensures |r| == 1 || |r| == 3
    ensures r[0] == "adb"
    ensures |r| == 3 ==> r[1] == "-s"
    ensures |r| == 1 <==> ((deviceId.None? || deviceId.value == [])
      && !(host.Some? && host.value != [] && port.Some? && port.value != 0))
    ensures deviceId.Some? && ':' in deviceId.value ==> r == ["adb", "-s", deviceId.value]
    ensures (deviceId.None? || ':' !in deviceId.value) && host.Some? && host.value != [] && port.Some? && port.value != 0
      ==> r == ["adb", "-s", host.value + ":" + IntToString(port.value)]
    ensures deviceId.Some? && deviceId.value != [] && ':' !in deviceId.value
            && !(host.Some? && host.value != [] && port.Some? && port.value != 0)
      ==> r == ["adb", "-s", deviceId.value]
  {
    if deviceId.Some? && ':' in deviceId.value then ["adb", "-s", deviceId.value]
    else if host.Some? && host.value != [] && port.Some? && port.value != 0 then
      ["adb", "-s", host.value + ":" + IntToString(port.value)]
    else if deviceId.Some? && deviceId.value != [] then ["adb", "-s", deviceId.value]
    else ["adb"]
  }

  /** Without host and port the prefix is the one the device layer builds
      for every serial that layer accepts; but no serial is rejected here,
      so one with a space goes through unchecked. */
  lemma BuildAgreesWithDevice(deviceId: Option<string>)
    ensures Device.AdbPrefix(deviceId).Ok? ==> BuildAdbCmd(deviceId, None, None) == Device.AdbPrefix(deviceId).value
    ensures BuildAdbCmd(Some("a b"), None, None) == ["adb", "-s", "a b"]
    ensures Device.AdbPrefix(Some("a b")).Err?
  {
    var s := "a b";
    assert !Device.IdChar(s[1]);
    if Device.IsValidDeviceId(s) {
      Device.ValidIdCharacters(s);
    }
  }

  /** The cache key: the serial when non-empty, else "host:port" as
      Python formats it (a missing part shows as "None"). */
  function CacheKey(deviceId: Option<string>, host: Option<string>, port: Option<int>): (r: string)
    ensures deviceId.Some? && deviceId.value != [] ==> r == deviceId.value
    ensures (deviceId.None? || deviceId.value == []) ==> ':' in r
    ensures (deviceId.None? || deviceId.value == []) ==> r == HostText(host) + ":" + PortText(port)
  {
    if deviceId.Some? && deviceId.value != [] then deviceId.value
    else
      var r := HostText(host) + ":" + PortText(port);
      assert r[|HostText(host)|] == ':';
      r
  }

  /** The answer `test -f … && echo OK` gives: it ran and printed "OK",
      whatever its exit status. */
  predicate ProbeSays(probe: Run) {
    probe.Exited? && Contains(probe.stdout, "OK")
  }

  /** The cache answers for `key` at time `now`. */
  predicate CacheHit(checked: map<string, bool>, expiry: map<string, int>, key: string, useCache: bool, now: int) {
    useCache && key in checked && now < (if key in expiry then expiry[key] else 0)
  }

  /** What `is_yadb_installed` answers. */
  function Installed(checked: map<string, bool>, expiry: map<string, int>, key: string,
                     useCache: bool, now: int, probe: Run): (r: bool)
    ensures !CacheHit(checked, expiry, key, useCache, now) ==> (r <==> ProbeSays(probe))
    ensures CacheHit(checked, expiry, key, useCache, now) ==> r == checked[key]
  {
    if CacheHit(checked, expiry, key, useCache, now) then checked[key] else ProbeSays(probe)
  }

  /** The cache after `is_yadb_installed`: a probe that ran is recorded
      when caching is on; a hit, a probe that raised, or caching off leave
      it as it was. */
  function CacheAfter(checked: map<string, bool>, expiry: map<string, int>, key: string,
                      useCache: bool, now: int, probe: Run): (r: (map<string, bool>, map<string, int>))
    ensures r.0 - {key} == checked - {key} && r.1 - {key} == expiry - {key}
    ensures CacheHit(checked, expiry, key, useCache, now) || !useCache || !probe.Exited? ==> r == (checked, expiry)
    ensures !CacheHit(checked, expiry, key, useCache, now) && useCache && probe.Exited? ==>
      key in r.0 && r.0[key] == ProbeSays(probe) && key in r.1 && r.1[key] == now + CacheTtl
  {
    if CacheHit(checked, expiry, key, useCache, now) || !useCache || !probe.Exited? then (checked, expiry)
    else (checked[key := ProbeSays(probe)], expiry[key := now + CacheTtl])
  }

  /** A recorded answer is the one the next call within the lifetime
      returns without probing: caching is consistent with probing. */
  lemma CachedAnswerReused(checked: map<string, bool>, expiry: map<string, int>, key: string,
                           now: int, later: int, probe: Run, probe2: Run)
    requires !CacheHit(checked, expiry, key, true, now) && probe.Exited?
    requires now <= later < now + CacheTtl
    ensures var (c, e) := CacheAfter(checked, expiry, key, true, now, probe);
      Installed(c, e, key, true, later, probe2) == Installed(checked, expiry, key, true, now, probe)
  {
    var (c, e) := CacheAfter(checked, expiry, key, true, now, probe);
    assert c == checked[key := ProbeSays(probe)] && e == expiry[key := now + CacheTtl];
    assert CacheHit(c, e, key, true, later);
  }

  /** The `ls` check of `_force_screenshot_single_attempt`: it ran,
      exited with status 0 and did not report a missing file. */
  predicate FileListed(ls: Run) {
    ls.Exited? && ls.code == 0 && !Contains(ls.stdout, "No such file")
  }

  /** The binary read of the screenshot file (`exec-out cat`). */
  datatype ReadRun = ReadExited(code: int, data: seq<bv8>) | ReadTimedOut | ReadFailed(error: string)

  /** The PNG signature's first four bytes, "\x89PNG". */
  const PngMagic: seq<bv8> := [0x89, 0x50, 0x4E, 0x47]

  /** The PNG check: at least 100 bytes starting with the signature. */
  function CheckPng(data: seq<bv8>): (r: Option<seq<bv8>>)
    ensures r.Some? <==> |data| >= 100 && data[..4] == PngMagic
    ensures r.Some? ==> r.value == data
  {
    if |data| == 0 || |data| < 100 then None
    else if data[..4] != PngMagic then None
    else Some(data)
  }

  /** The runs of one screenshot attempt, and the reconnection runs used
      before a retry. */
  datatype ShotRuns = ShotRuns(
    now: int, probe: Run, shot: Run, ls: Run, cat: ReadRun,
    devices: Run, reconnects: int -> AutoReconnect.ReconnectAttempt)

  /** The image the device-side steps of an attempt yield once yadb is
      ready: screenshot command, `ls` check, binary read, PNG check; any
      exception, non-zero status or missing file gives nothing. */
  function ShotData(a: ShotRuns): (r: Option<seq<bv8>>)
    ensures r.Some? ==> (a.shot.Exited? && a.shot.code == 0 && FileListed(a.ls)
      && a.cat.ReadExited? && a.cat.code == 0 && r == CheckPng(a.cat.data))
    ensures r.Some? ==> |r.value| >= 100 && r.value[..4] == PngMagic
    ensures (a.shot.Exited? && a.shot.code == 0 && FileListed(a.ls) && a.cat.ReadExited? && a.cat.code == 0
             && |a.cat.data| >= 100 && a.cat.data[..4] == PngMagic) ==> r == Some(a.cat.data)
  {
    if !(a.shot.Exited? && a.shot.code == 0) then None
    else if !FileListed(a.ls) then None
    else
      match a.cat
      case ReadExited(code, data) => if code != 0 then None else CheckPng(data)
      case _ => None
  }

  /** The connection check before a retry succeeds: a serial the
      reconnection module ignores, a device found online, or a successful
      reconnection. */
  predicate ReconnectOk(deviceId: Option<string>, a: ShotRuns) {
    !AutoReconnect.NetworkSerial(deviceId)
    || AutoReconnect.IsDeviceOnline(deviceId.value, a.devices)
    || AutoReconnect.ReconnectSucceeds(deviceId.value, AutoReconnect.DefaultReconnectAttempts, a.reconnects)
  }

  /** A retry succeeds: the connection check passes, yadb is found by a
      fresh probe and the device-side steps yield an image. */
  predicate RetrySucceeds(deviceId: Option<string>, a: ShotRuns) {
    ReconnectOk(deviceId, a) && ProbeSays(a.probe) && ShotData(a).Some?
  }

  /** The image the first attempt yields: the probe (or the cache)
      must report yadb installed, then the device-side steps decide. */
  function FirstShot(checked: map<string, bool>, expiry: map<string, int>, key: string, a: ShotRuns): (r: Option<seq<bv8>>)
    ensures r.Some? ==> Installed(checked, expiry, key, true, a.now, a.probe) && r == ShotData(a)
    ensures r.None? ==> !Installed(checked, expiry, key, true, a.now, a.probe) || ShotData(a).None?
  {
    if Installed(checked, expiry, key, true, a.now, a.probe) then ShotData(a) else None
  }

  /** The image a retry yields. */
  function RetryShot(deviceId: Option<string>, a: ShotRuns): (r: Option<seq<bv8>>)
    ensures r.Some? <==> RetrySucceeds(deviceId, a)
    ensures r.Some? ==> r == ShotData(a)
  {
    if RetrySucceeds(deviceId, a) then ShotData(a) else None
  }

  /** `text.replace(" ", "\\ ")`: spaces escaped for the device shell. */
  function EscapeSpaces(text: string): string {
    ReplaceAll(text, " ", "\\ ")
  }

  /** One step of the escaping. */
  lemma EscapeStep(text: string)
    requires text != []
    ensures EscapeSpaces(text) == (if text[0] == ' ' then "\\ " else [text[0]]) + EscapeSpaces(text[1..])
  {
    if text[0] == ' ' {
      ReplaceAtStart(text, " ", "\\ ");
    } else {
      NotStartsWith(text, " ");
      ReplaceStep(text, " ", "\\ ");
    }
  }

  /** The shell's blanks, which separate words. */
  predicate Blank(c: char) {
    c == ' ' || c == '\t'
  }

  /** Characters the device shell gives a meaning of its own that the word
      reading below does not follow: double quotes, expansions, command
      separators, redirections, globbing, comments, tildes and braces. */
  predicate Interpreted(c: char) {
    c in "\"$`;&|<>()\n*?[#~{}"
  }

  /** The words `sh` reads from `s`, `cur` being the word under way (None
      between words). A backslash takes the next character as it is (a
      backslash before a line break drops both), single quotes take
      everything up to the next single quote, blanks end a word. None when
      the text ends in a lone backslash or inside quotes, or holds an
      interpreted character. */
  function ReadWords(s: string, cur: Option<string>): Option<seq<string>>
    decreases |s|
  {
    if s == [] then Some(if cur.Some? then [cur.value] else [])
    else if s[0] == '\\' then
      if |s| == 1 then None
      else if s[1] == '\n' then ReadWords(s[2..], cur)
      else ReadWords(s[2..], Some(cur.GetOr("") + [s[1]]))
    else if s[0] == '\'' then ReadQuoted(s[1..], cur.GetOr(""))
    else if Blank(s[0]) then
      match ReadWords(s[1..], None)
      case None => None
      case Some(ws) => Some((if cur.Some? then [cur.value] else []) + ws)
    else if Interpreted(s[0]) then None
    else ReadWords(s[1..], Some(cur.GetOr("") + [s[0]]))
  }

  /** The rest of a single-quoted stretch, `cur` being the word so far. */
  function ReadQuoted(s: string, cur: string): Option<seq<string>>
    decreases |s|
  {
    if s == [] then None
    else if s[0] == '\'' then ReadWords(s[1..], Some(cur))
    else ReadQuoted(s[1..], cur + [s[0]])
  }

  /** The words the device shell reads from an argument of the command
      `adb shell` hands it. */
  function ShellRead(s: string): Option<seq<string>> {
    ReadWords(s, None)
  }

  /** A character the space escaping lets through unchanged and the shell
      reads as itself. */
  predicate PlainChar(c: char) {
    c != '\\' && c != '\'' && c != '\t' && !Interpreted(c)
  }

  predicate Plain(text: string) {
    forall i :: 0 <= i < |text| ==> PlainChar(text[i])
  }

  /** The escaped text of a plain text continues the word under way with
      exactly that text. */
  lemma {:induction false} EscapedPlainRead(text: string, w: string)
    requires Plain(text)
    ensures ReadWords(EscapeSpaces(text), Some(w)) == Some([w + text])
    decreases |text|
  {
    if text == [] {
      EscapeEmpty();
      assert w + text == w;
    } else {
      EscapeStep(text);
      var rest := EscapeSpaces(text[1..]);
      PlainTail(text);
      if text[0] == ' ' {
        var e := "\\ " + rest;
        assert e[0] == '\\' && e[1] == ' ' && e[2..] == rest;
        EscapedPlainRead(text[1..], w + " ");
        assert ReadWords(e, Some(w)) == ReadWords(rest, Some(w + " "));
        assert (w + " ") + text[1..] == w + text;
      } else {
        var e := [text[0]] + rest;
        assert PlainChar(text[0]);
        assert e[0] == text[0] && e[1..] == rest;
        EscapedPlainRead(text[1..], w + [text[0]]);
        assert ReadWords(e, Some(w)) == ReadWords(rest, Some(w + [text[0]]));
        assert (w + [text[0]]) + text[1..] == w + text;
      }
    }
  }

  lemma PlainTail(text: string)
    requires text != [] && Plain(text)
    ensures PlainChar(text[0]) && Plain(text[1..])
  {
    forall i | 0 <= i < |text[1..]| ensures PlainChar(text[1..][i]) {
      assert text[1..][i] == text[i + 1];
    }
  }

  lemma EscapeEmpty()
    ensures EscapeSpaces([]) == []
  {
  }

  /** As written, the space escaping delivers a plain text to yadb as the
      one word it is; an empty text delivers no word at all. */
  lemma EscapeRoundTrip(text: string)
    requires Plain(text)
    ensures text != [] ==> ShellRead(EscapeSpaces(text)) == Some([text])
    ensures text == [] ==> ShellRead(EscapeSpaces(text)) == Some([])
  {
    if text == [] {
      EscapeEmpty();
    } else {
      EscapeStep(text);
      var rest := EscapeSpaces(text[1..]);
      PlainTail(text);
      if text[0] == ' ' {
        var e := "\\ " + rest;
        assert e[0] == '\\' && e[1] == ' ' && e[2..] == rest;
        EscapedPlainRead(text[1..], " ");
        var none: Option<string> := None;
        assert none.GetOr("") + [e[1]] == " ";
        assert ReadWords(e, none) == ReadWords(rest, Some(" "));
        assert " " + text[1..] == text;
      } else {
        var e := [text[0]] + rest;
        assert e[0] == text[0] && e[1..] == rest;
        EscapedPlainRead(text[1..], [text[0]]);
        var none: Option<string> := None;
        assert none.GetOr("") + [e[0]] == [text[0]];
        assert ReadWords(e, none) == ReadWords(rest, Some([text[0]]));
        assert [text[0]] + text[1..] == text;
      }
    }
  }

  /** A text without spaces is sent as it is. */
  lemma {:induction false} NoSpaceUnescaped(text: string)
    requires forall i :: 0 <= i < |text| ==> text[i] != ' '
    ensures EscapeSpaces(text) == text
    decreases |text|
  {
    if text != [] {
      EscapeStep(text);
      NoSpaceUnescaped(text[1..]);
      assert [text[0]] + text[1..] == text;
    }
  }

  /** The shell's reading of one plain character, one backslash pair and
      one blank. */
  lemma ReadPlain(c: char, s: string, cur: Option<string>)
    requires PlainChar(c) && !Blank(c)
    ensures ReadWords([c] + s, cur) == ReadWords(s, Some(cur.GetOr("") + [c]))
  {
    assert ([c] + s)[0] == c && ([c] + s)[1..] == s;
  }

  lemma ReadEscaped(c: char, s: string, cur: Option<string>)
    requires c != '\n'
    ensures ReadWords(['\\', c] + s, cur) == ReadWords(s, Some(cur.GetOr("") + [c]))
  {
    assert (['\\', c] + s)[2..] == s;
  }

  lemma ReadBlank(s: string, w: string)
    ensures ReadWords([' '] + s, Some(w)) ==
            (match ReadWords(s, None) case None => None case Some(ws) => Some([w] + ws))
  {
    assert ([' '] + s)[1..] == s;
  }

  /** `a\ b` is sent as `a\\ b`. */
  lemma BackslashSpaceEscaped()
    ensures EscapeSpaces("a\\ b") == ['a'] + (['\\', '\\'] + ([' '] + "b"))
  {
    var t3: string := "b";
    var t2 := [' '] + t3;
    var t1 := ['\\'] + t2;
    var t := ['a'] + t1;
    assert t == "a\\ b";
    EscapeStep(t);
    assert t[1..] == t1;
    EscapeStep(t1);
    assert t1[1..] == t2;
    EscapeStep(t2);
    assert t2[1..] == t3;
    NoSpaceUnescaped(t3);
  }

  /** The shell reads `a\\ b` as the words `a\` and `b`. */
  lemma DoubledBackslashRead()
    ensures ShellRead(['a'] + (['\\', '\\'] + ([' '] + "b"))) == Some(["a\\", "b"])
  {
    var b: string := "b";
    var tail := [' '] + b;
    var none: Option<string> := None;
    ReadPlain('a', ['\\', '\\'] + tail, none);
    assert none.GetOr("") + ['a'] == "a";
    ReadEscaped('\\', tail, Some("a"));
    assert "a" + ['\\'] == "a\\";
    ReadBlank(b, "a\\");
    ReadPlain('b', [], none);
    assert b == ['b'] + [] && none.GetOr("") + ['b'] == b;
    assert ReadWords(b, none) == Some([b]);
    assert ["a\\"] + [b] == ["a\\", "b"];
  }

  /** A backslash already in the text escapes the backslash the escaping
      adds, and the space after it splits the word: `a\ b` is typed as the
      word `a\` followed by a separate `b`. */
  lemma BackslashSpaceSplits()
    ensures ShellRead(EscapeSpaces("a\\ b")) == Some(["a\\", "b"])
  {
    BackslashSpaceEscaped();
    DoubledBackslashRead();
  }

  /** The shell does not read `a;b` as a word: the semicolon ends a command. */
  lemma SemicolonInterpreted()
    ensures ShellRead("a;b") == None
  {
    var none: Option<string> := None;
    var sb: string := ";b";
    assert "a;b" == ['a'] + sb;
    ReadPlain('a', sb, none);
    assert sb[0] == ';' && Interpreted(';');
  }

  /** Nor `it's`: the apostrophe opens a quote that is never closed. */
  lemma ApostropheUnclosed()
    ensures ShellRead("it's") == None
  {
    var none: Option<string> := None;
    var qs: string := "'s";
    assert "it's" == ['i'] + (['t'] + qs);
    ReadPlain('i', ['t'] + qs, none);
    assert none.GetOr("") + ['i'] == "i";
    ReadPlain('t', qs, Some("i"));
    assert "i" + ['t'] == "it";
    assert qs[0] == '\'' && qs[1..] == "s";
    assert ReadWords(qs, Some("it")) == ReadQuoted("s", "it");
    assert "s"[1..] == [];
  }

  /** A semicolon or a lone apostrophe reaches the shell unescaped, and the
      shell does not read either text as a word. */
  lemma InterpretedCharactersPassUnescaped()
    ensures ShellRead(EscapeSpaces("a;b")) == None
    ensures ShellRead(EscapeSpaces("it's")) == None
  {
    NoSpaceUnescaped("a;b");
    NoSpaceUnescaped("it's");
    SemicolonInterpreted();
    ApostropheUnclosed();
  }

  /** One character quoted for the shell: an apostrophe escaped with a
      backslash, anything else between single quotes. */
  function QuoteChar(c: char): string {
    if c == '\'' then "\\'" else "'" + [c] + "'"
  }

  function QuoteEach(text: string): string {
    if text == [] then [] else QuoteChar(text[0]) + QuoteEach(text[1..])
  }

  /** Every character quoted, after an empty quoted pair so that the empty
      text is still one word. */
  function ShellQuote(text: string): (r: string)
    ensures ShellRead(r) == Some([text])
  {
    var r := "''" + QuoteEach(text);
    assert r[0] == '\'' && r[1..][0] == '\'' && r[1..][1..] == QuoteEach(text);
    QuotedRead(text, "");
    assert ReadWords(r, None) == ReadQuoted(r[1..], "");
    assert ReadQuoted(r[1..], "") == ReadWords(QuoteEach(text), Some(""));
    assert "" + text == text;
    r
  }

  /** The quoted text of any text continues the word under way with exactly
      that text. */
  lemma {:induction false} QuotedRead(text: string, w: string)
    ensures ReadWords(QuoteEach(text), Some(w)) == Some([w + text])
    decreases |text|
  {
    if text == [] {
      assert w + text == w;
    } else {
      var c := text[0];
      var rest := QuoteEach(text[1..]);
      var e := QuoteChar(c) + rest;
      assert QuoteEach(text) == e;
      QuotedRead(text[1..], w + [c]);
      if c == '\'' {
        assert e[0] == '\\' && e[1] == '\'' && e[2..] == rest;
        assert ReadWords(e, Some(w)) == ReadWords(rest, Some(w + [c]));
      } else {
        var q := e[1..];
        assert e[0] == '\'' && q[0] == c && q[1..][0] == '\'' && q[1..][1..] == rest;
        assert ReadWords(e, Some(w)) == ReadQuoted(q, w);
        assert ReadQuoted(q, w) == ReadQuoted(q[1..], w + [c]);
        assert ReadQuoted(q[1..], w + [c]) == ReadWords(rest, Some(w + [c]));
      }
      assert (w + [c]) + text[1..] == w + text;
    }
  }

  /** The escaped text never starts with a bare space. */
  lemma EscapedHead(text: string)
    requires text != []
    ensures EscapeSpaces(text) != [] && EscapeSpaces(text)[0] != ' '
  {
    EscapeStep(text);
  }

  /** Every space of the escaped text follows a backslash. */
  lemma {:induction false} EscapedSpacesFollowBackslash(text: string)
    ensures var e := EscapeSpaces(text);
      forall i :: 0 <= i < |e| && e[i] == ' ' ==> i > 0 && e[i - 1] == '\\'
    decreases |text|
  {
    if text != [] {
      EscapeStep(text);
      EscapedSpacesFollowBackslash(text[1..]);
      var rest := EscapeSpaces(text[1..]);
      var head: string := if text[0] == ' ' then "\\ " else [text[0]];
      var e := head + rest;
      if text[1..] != [] { EscapedHead(text[1..]); }
      forall i | 0 <= i < |e| && e[i] == ' ' ensures i > 0 && e[i - 1] == '\\' {
        if i >= |head| {
          assert e[i] == rest[i - |head|];
          assert e[i - 1] == rest[i - 1 - |head|];
        }
      }
    }
  }

  /** The `-keyboard` command `type_text` sends after the prefix. */
  function TypeCommand(prefix: seq<string>, text: string): (r: seq<string>)
    ensures |r| == |prefix| + 7 && r[..|prefix|] == prefix
    ensures Plain(text) && text != [] ==> ShellRead(r[|r| - 1]) == Some([text])
  {
    assert Plain(text) && text != [] ==> ShellRead(EscapeSpaces(text)) == Some([text]) by {
      if Plain(text) { EscapeRoundTrip(text); }
    }
    prefix + ["shell", "app_process", "-Djava.class.path=/data/local/tmp/yadb",
              "/data/local/tmp", "com.ysbing.yadb.Main", "-keyboard", EscapeSpaces(text)]
  }

  /** The module-level caches of the probe: answer and expiry per key. */
  class YadbCache {
    var checked: map<string, bool>
    var expiry: map<string, int>

    constructor()
      ensures checked == map[] && expiry == map[]
    {
      checked := map[];
      expiry := map[];
    }

    /** `is_yadb_installed` at time `now`; `probe` is the `test -f` run,
        only made when the cache does not answer. */
    method IsYadbInstalled(deviceId: Option<string>, host: Option<string>, port: Option<int>,
                           useCache: bool, now: int, probe: Run) returns (installed: bool)
      modifies this
      ensures var key := CacheKey(deviceId, host, port);
        installed == Installed(old(checked), old(expiry), key, useCache, now, probe)
        && (checked, expiry) == CacheAfter(old(checked), old(expiry), key, useCache, now, probe)
    {
      var key := CacheKey(deviceId, host, port);
      if useCache && key in checked {
        if now < (if key in expiry then expiry[key] else 0) {
          return checked[key];
        }
      }
      match probe
      case Exited(_, out, _) =>
        installed := Contains(out, "OK");
        if useCache {
          checked := checked[key := installed];
          expiry := expiry[key := now + CacheTtl];
        }
      case _ =>
        installed := false;
    }

    /** `ensure_yadb_ready`: ready when the probe says so; otherwise the
        fallback installation runs only when not skipped, and `install`
        is its outcome. */
    method EnsureYadbReady(deviceId: Option<string>, host: Option<string>, port: Option<int>,
                           skipInstall: bool, now: int, probe: Run, install: bool) returns (ready: bool)
      modifies this
      ensures var key := CacheKey(deviceId, host, port);
        (ready <==> Installed(old(checked), old(expiry), key, true, now, probe) || (!skipInstall && install))
        && (checked, expiry) == CacheAfter(old(checked), old(expiry), key, true, now, probe)
    {
      ready := IsYadbInstalled(deviceId, host, port, true, now, probe);
      if !ready && !skipInstall {
        ready := install;
      }
    }

    /** `type_text`: yadb must be ready (without installing), then the
        `-keyboard` command must exit with status 0. */
    method TypeText(text: string, deviceId: Option<string>, host: Option<string>, port: Option<int>,
                    now: int, probe: Run, typing: Run) returns (ok: bool, cmd: seq<string>)
      modifies this
      ensures var key := CacheKey(deviceId, host, port);
        (ok <==> Installed(old(checked), old(expiry), key, true, now, probe) && typing.Exited? && typing.code == 0)
        && (checked, expiry) == CacheAfter(old(checked), old(expiry), key, true, now, probe)
      ensures ok ==> cmd == TypeCommand(BuildAdbCmd(deviceId, host, port), text)
    {
      cmd := [];
      var ready := EnsureYadbReady(deviceId, host, port, true, now, probe, false);
      if !ready {
        return false, cmd;
      }
      cmd := TypeCommand(BuildAdbCmd(deviceId, host, port), text);
      ok := typing.Exited? && typing.code == 0;
    }

    /** Drops the cached answer for `key`. */
    method Evict(key: string)
      modifies this
      ensures checked == old(checked) - {key} && expiry == old(expiry) - {key}
    {
      checked := checked - {key};
      expiry := expiry - {key};
    }

    /** `_force_screenshot_single_attempt`: yadb must be ready (the cache
        may answer), then the device-side steps decide. */
    method SingleAttempt(deviceId: Option<string>, host: Option<string>, port: Option<int>, a: ShotRuns)
      returns (png: Option<seq<bv8>>)
      modifies this
      ensures var key := CacheKey(deviceId, host, port);
        png == FirstShot(old(checked), old(expiry), key, a)
        && (checked, expiry) == CacheAfter(old(checked), old(expiry), key, true, a.now, a.probe)
    {
      var ready := EnsureYadbReady(deviceId, host, port, true, a.now, a.probe, false);
      if !ready {
        return None;
      }
      png := ShotData(a);
    }

    /** A retry of `force_screenshot`: clear the connection cache, force
        a connection check, and when it passes make a single attempt. With
        no cached probe answer, the attempt always probes afresh. */
    method Retry(deviceId: Option<string>, host: Option<string>, port: Option<int>,
                 a: ShotRuns, monitor: AutoReconnect.ConnectionCache) returns (connected: bool, png: Option<seq<bv8>>)
      requires CacheKey(deviceId, host, port) !in checked
      modifies this, monitor
      ensures connected == ReconnectOk(deviceId, a)
      ensures png == RetryShot(deviceId, a)
      ensures (checked, expiry) == if connected
        then CacheAfter(old(checked), old(expiry), CacheKey(deviceId, host, port), true, a.now, a.probe)
        else (old(checked), old(expiry))
      ensures monitor.lastOnline == if connected && AutoReconnect.NetworkSerial(deviceId)
        then map[deviceId.value := a.now] else map[]
    {
      monitor.Clear();
      var check := monitor.EnsureDeviceConnected(deviceId, true, a.now, a.devices, a.reconnects);
      connected := check.Ok?;
      if !connected {
        return connected, None;
      }
      png := SingleAttempt(deviceId, host, port, a);
    }

    /** Attempt number `attempt` of `force_screenshot`, followed by the
        cache clearing that precedes another attempt. */
    method ScreenshotStep(deviceId: Option<string>, host: Option<string>, port: Option<int>,
                          attempt: int, maxRetries: int, a: ShotRuns, monitor: AutoReconnect.ConnectionCache)
      returns (png: Option<seq<bv8>>)
      requires attempt >= 2 ==> CacheKey(deviceId, host, port) !in checked
      modifies this, monitor
      ensures attempt <= 1 ==> png == FirstShot(old(checked), old(expiry), CacheKey(deviceId, host, port), a)
      ensures attempt >= 2 ==> png == RetryShot(deviceId, a)
      ensures png.None? && attempt < maxRetries ==> CacheKey(deviceId, host, port) !in checked
    {
      var key := CacheKey(deviceId, host, port);
      var ran := true;
      if attempt > 1 {
        // A failed connection check skips this attempt; on the last one
        // nothing is left to try either way.
        ran, png := Retry(deviceId, host, port, a, monitor);
      } else {
        png := SingleAttempt(deviceId, host, port, a);
      }
      if ran && png.None? && attempt < maxRetries {
        monitor.Clear();
        Evict(key);
      }
    }

    /** `force_screenshot`: attempt `k` (from 1) uses the runs `runs(k)`.
        Every retry first clears the connection cache and forces a
        connection check; a failed check skips the attempt (or gives up
        on the last one). After a failed attempt that is not the last, the
        connection cache and this probe's cache entry are cleared, so a
        retry never trusts an earlier "not installed". */
    method ForceScreenshot(deviceId: Option<string>, host: Option<string>, port: Option<int>,
                           maxRetries: int, runs: int -> ShotRuns, monitor: AutoReconnect.ConnectionCache)
      returns (png: Option<seq<bv8>>, made: nat)
      modifies this, monitor
      ensures made <= Max(maxRetries, 0)
      ensures png.None? ==> made == Max(maxRetries, 0)
      ensures png.Some? ==> 1 <= made && |png.value| >= 100 && png.value[..4] == PngMagic
      ensures png.Some? && made == 1 ==> png == FirstShot(old(checked), old(expiry), CacheKey(deviceId, host, port), runs(1))
      ensures png.Some? && made >= 2 ==> png == RetryShot(deviceId, runs(made))
      ensures made >= 2 ==> FirstShot(old(checked), old(expiry), CacheKey(deviceId, host, port), runs(1)).None?
      ensures forall k :: 2 <= k < made ==> RetryShot(deviceId, runs(k)).None?
      ensures png.None? ==> forall k :: 2 <= k <= maxRetries ==> RetryShot(deviceId, runs(k)).None?
    {
      var key := CacheKey(deviceId, host, port);
      png, made := None, 0;
      var attempt := 1;
      while attempt <= maxRetries && png.None?
        invariant 1 <= attempt <= Max(maxRetries, 0) + 1
        invariant made == attempt - 1
        invariant attempt == 1 ==> checked == old(checked) && expiry == old(expiry) && png.None?
        invariant 2 <= attempt <= maxRetries && png.None? ==> key !in checked
        invariant png.Some? && made == 1 ==> png == FirstShot(old(checked), old(expiry), key, runs(1))
        invariant png.Some? && made >= 2 ==> png == RetryShot(deviceId, runs(made))
        invariant made >= 2 || (made == 1 && png.None?) ==> FirstShot(old(checked), old(expiry), key, runs(1)).None?
        invariant forall k :: 2 <= k < attempt && (png.None? || k < made) ==> RetryShot(deviceId, runs(k)).None?
        decreases maxRetries - attempt
      {
        made := attempt;
        png := ScreenshotStep(deviceId, host, port, attempt, maxRetries, runs(attempt), monitor);
        attempt := attempt + 1;
      }
    }
  }
}
