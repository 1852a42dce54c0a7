/**
 * The PC agent's action-text parser, its completion test, the key-combination
 * split and the click-by-index lookup of its executor, and the answer-letter
 * extraction of its reflection step.
 *
 * Regular-expression searches are not modelled character by character: what
 * each pattern captured in the text (or that it did not match) is given as a
 * `Captures` value, and the parser is modelled over the text plus those
 * captures, with the source's branch order, guards and constants.
 */
module PcAgent {
  import opened Util
  import PcPerception

  /** What each of the parser's regular expressions captured, if it matched. */
  datatype Captures = Captures(
    finishMessage: Option<string>,          // finish(message="…")
    openApp: Option<string>,                // Open App (…)
    tapIdx: Option<nat>,                    // TapIdx (n)
    tap: Option<(nat, nat)>,                // Tap (x, y)
    doubleTapIdx: Option<nat>,              // Double TapIdx (n)
    doubleTap: Option<(nat, nat)>,          // Double Tap (x, y)
    shortcut: Option<(string, string)>,     // Shortcut (k1, k2)
    press: Option<string>,                  // Press (k)
    typeArgs: Option<(nat, nat, string)>,   // Type (x, y), (text)
    replaceArgs: Option<(nat, nat, string)>,
    appendArgs: Option<(nat, nat, string)>,
    tell: Option<string>)                   // Tell (answer)

  /** The agent attributes the parser reads. */
  datatype AgentConfig = AgentConfig(
    ctrlKey: string,
    searchKey: SearchKey,
    coordinateSystem: string,
    screenWidth: int,
    screenHeight: int)

  /** `search_key` is either a list of keys or one combined string. */
  datatype SearchKey = KeyList(keys: seq<string>) | KeyString(combined: string)

  /** A follow-up step; waits are in milliseconds. */
  datatype FollowUp = Wait(ms: nat) | TypeStep(text: string) | KeyStep(keys: string)

  datatype Params =
    | NoParams
    | ClickAt(x: int, y: int, clicks: nat)
    | ClickIdx(index: int, clicks: nat)
    | Keys(keys: string)

  /** The action dictionary the parser returns. */
  datatype Action = Action(
    actionType: string,
    params: Params,
    message: Option<string>,
    metadata: Option<string>,
    nextActions: seq<FollowUp>,
    requiresPerception: bool,
    appName: Option<string>)

  /**
   * Shape every parsed action has: finish actions alone carry no parameters,
   * only finish actions carry the finish marker, and exactly the index clicks
   * ask for perception.
   */
  predicate WellFormed(a: Action) {
    (a.actionType == "finish" <==> a.params == NoParams)
    && (a.metadata.Some? ==> a.actionType == "finish")
    && (a.requiresPerception <==> a.params.ClickIdx?)
    && (a.appName.Some? ==> a.actionType == "key")
  }

  const DefaultFinishMessage := "任务完成"
  const UnparsedPrefix := "无法解析动作: "
  const AnswerPrefix := "回答: "

  function FinishAction(message: string, marked: bool): (r: Action)
    ensures WellFormed(r) && r.actionType == "finish"
  {
    Action("finish", NoParams, Some(message), if marked then Some("finish") else None, [], false, None)
  }

  /** `s.strip(c)`: drop `c` from both ends. */
  function StripChar(s: string, c: char): (r: string)
    ensures |r| <= |s|
    ensures r != [] ==> r[0] != c && r[|r| - 1] != c
    decreases |s|
  {
    if s != [] && s[0] == c then StripChar(s[1..], c)
    else if s != [] && s[|s| - 1] == c then StripChar(s[..|s| - 1], c)
    else s
  }

  /** What `strip(c)` keeps is one slice of the text, and everything it drops
      on either side is `c`. */
  lemma {:induction false} StripCharSlice(s: string, c: char) returns (i: nat, j: nat)
    ensures i <= j <= |s| && StripChar(s, c) == s[i..j]
    ensures forall k :: 0 <= k < i ==> s[k] == c
    ensures forall k :: j <= k < |s| ==> s[k] == c
    decreases |s|
  {
    if s != [] && s[0] == c {
      var u := s[1..];
      var i', j' := StripCharSlice(u, c);
      i, j := i' + 1, j' + 1;
      assert u[i'..j'] == s[i..j];
      forall k | 0 < k < i ensures s[k] == c { assert s[k] == u[k - 1]; }
      forall k | j <= k < |s| ensures s[k] == c { assert s[k] == u[k - 1]; }
    } else if s != [] && s[|s| - 1] == c {
      var u := s[..|s| - 1];
      i, j := StripCharSlice(u, c);
      assert u[i..j] == s[i..j];
      forall k | j <= k < |s| - 1 ensures s[k] == c { assert s[k] == u[k]; }
    } else {
      i, j := 0, |s|;
    }
  }

  /** `.strip().strip('"').strip("'")` applied to a captured argument. */
  function CleanArgument(s: string): string {
    StripChar(StripChar(Strip(s), '"'), '\'')
  }

  function SearchKeyString(k: SearchKey): string {
    match k
    case KeyList(keys) => Join(keys, '+')
    case KeyString(s) => s
  }

  /** Normalized coordinates become pixels only in normalized mode and when both are at most 1000. */
  function Point(nx: nat, ny: nat, cfg: AgentConfig): (r: (int, int))
    ensures cfg.coordinateSystem == "normalized" && nx <= 1000 && ny <= 1000 ==>
      r == PcPerception.DenormalizeCoordinates(nx, ny, cfg.screenWidth, cfg.screenHeight)
    ensures !(cfg.coordinateSystem == "normalized" && nx <= 1000 && ny <= 1000) ==> r == (nx, ny)
  {
    if cfg.coordinateSystem == "normalized" && nx <= 1000 && ny <= 1000 then
      PcPerception.DenormalizeCoordinates(nx, ny, cfg.screenWidth, cfg.screenHeight)
    else (nx, ny)
  }

  /** Wait after typing: longer texts get 1.5 s, others 0.8 s. */
  function InputDelay(text: string): nat {
    if |text| > 10 then 1500 else 800
  }

  function Click(p: (int, int), clicks: nat, next: seq<FollowUp>): (r: Action)
    ensures WellFormed(r) && r.actionType == "click"
  {
    Action("click", ClickAt(p.0, p.1, clicks), None, None, next, false, None)
  }

  function KeyAction(keys: string, next: seq<FollowUp>, app: Option<string>): (r: Action)
    ensures WellFormed(r) && r.actionType == "key"
  {
    Action("key", Keys(keys), None, None, next, false, app)
  }

  /** A click on a marked element, which needs the perception result. */
  function ClickIdxAction(index: int, clicks: nat): (r: Action)
    ensures WellFormed(r) && r.actionType == "click_idx" && r.requiresPerception
  {
    Action("click_idx", ClickIdx(index, clicks), None, None, [], true, None)
  }

  function SubmitTail(text: string): seq<FollowUp> {
    [TypeStep(text), Wait(InputDelay(text)), KeyStep("enter"), Wait(500), KeyStep("enter"), Wait(1000)]
  }

  function OpenAppSteps(app: string): seq<FollowUp> {
    [Wait(3000), TypeStep(app), Wait(2500), KeyStep("enter"), Wait(500), KeyStep("enter"), Wait(4000)]
  }

  function ShortcutKeys(k1: string, k2: string, ctrlKey: string): (r: string)
    ensures var a := Lower(Strip(k1));
      (a == "command" || a == "cmd") ==> r == ctrlKey + "+" + Lower(Strip(k2))
  {
    var a := Lower(Strip(k1));
    var b := Lower(Strip(k2));
    (if a == "command" || a == "cmd" then ctrlKey else a) + "+" + b
  }

  predicate IsCriticalKey(k: string) {
    k in ["enter", "return", "esc", "escape", "tab"]
  }

  /**
   * The parser: the first rule whose keyword occurs in the stripped text and
   * whose pattern matched decides the action; a keyword without a match falls
   * through to the next rule.
   */
  function ParseAction(raw: string, cfg: AgentConfig, cap: Captures): (r: Action)
    ensures WellFormed(r)
  {
    var t := Strip(raw);
    if Contains(Lower(t), "finish") then
      FinishAction(cap.finishMessage.GetOr(DefaultFinishMessage), true)
    else if Contains(t, "Stop") then
      FinishAction(DefaultFinishMessage, true)
    else if Contains(t, "Open App") && cap.openApp.Some? then
      var app := CleanArgument(cap.openApp.value);
      KeyAction(SearchKeyString(cfg.searchKey), OpenAppSteps(app), Some(app))
    else if Contains(t, "TapIdx") && !Contains(t, "Double") && cap.tapIdx.Some? then
      ClickIdxAction(cap.tapIdx.value - 1, 1)
    else if Contains(t, "Tap") && !Contains(t, "Double") && cap.tap.Some? then
      Click(Point(cap.tap.value.0, cap.tap.value.1, cfg), 1, [])
    else if Contains(t, "Double TapIdx") && cap.doubleTapIdx.Some? then
      ClickIdxAction(cap.doubleTapIdx.value - 1, 2)
    else if Contains(t, "Double Tap") && cap.doubleTap.Some? then
      Click(Point(cap.doubleTap.value.0, cap.doubleTap.value.1, cfg), 2, [])
    else if Contains(t, "Shortcut") && cap.shortcut.Some? then
      KeyAction(ShortcutKeys(cap.shortcut.value.0, cap.shortcut.value.1, cfg.ctrlKey), [Wait(500)], None)
    else if Contains(t, "Press") && cap.press.Some? then
      var k := Lower(Strip(cap.press.value));
      KeyAction(k, [Wait(if IsCriticalKey(k) then 500 else 300)], None)
    else if Contains(t, "Type") && cap.typeArgs.Some? then
      var (x, y, s) := cap.typeArgs.value;
      var text := CleanArgument(s);
      Click(Point(x, y, cfg), 1, [Wait(500)] + SubmitTail(text))
    else if Contains(t, "Replace") && cap.replaceArgs.Some? then
      var (x, y, s) := cap.replaceArgs.value;
      var text := CleanArgument(s);
      Click(Point(x, y, cfg), 2, [Wait(800)] + SubmitTail(text))
    else if Contains(t, "Append") && cap.appendArgs.Some? then
      var (x, y, s) := cap.appendArgs.value;
      var text := CleanArgument(s);
      Click(Point(x, y, cfg), 1,
        [Wait(500), KeyStep(cfg.ctrlKey + "+a"), Wait(300), KeyStep("down"), Wait(300)] + SubmitTail(text))
    else if Contains(t, "Tell") && cap.tell.Some? then
      FinishAction(AnswerPrefix + Strip(cap.tell.value), false)
    else
      FinishAction(UnparsedPrefix + t, false)
  }

  /** Any text mentioning "finish" in any letter case ends the task, with the finish marker. */
  lemma FinishWins(raw: string, cfg: AgentConfig, cap: Captures)
    requires Contains(Lower(Strip(raw)), "finish")
    ensures var a := ParseAction(raw, cfg, cap);
      a.actionType == "finish" && a.metadata == Some("finish") &&
      a.message == Some(if cap.finishMessage.Some? then cap.finishMessage.value else DefaultFinishMessage)
    ensures IsFinish(ParseAction(raw, cfg, cap).metadata, None, "")
  {
  }

  /** "Stop" without "finish" also finishes with the default message. */
  lemma StopFinishes(raw: string, cfg: AgentConfig, cap: Captures)
    requires !Contains(Lower(Strip(raw)), "finish") && Contains(Strip(raw), "Stop")
    ensures ParseAction(raw, cfg, cap) == FinishAction(DefaultFinishMessage, true)
  {
  }

  /** A tap by mark number n (without "Double") clicks once at index n - 1. */
  lemma TapIdxIsZeroBased(raw: string, cfg: AgentConfig, cap: Captures)
    requires var t := Strip(raw);
      !Contains(Lower(t), "finish") && !Contains(t, "Stop") && !Contains(t, "Open App")
      && Contains(t, "TapIdx") && !Contains(t, "Double") && cap.tapIdx.Some?
    ensures var a := ParseAction(raw, cfg, cap);
      a.actionType == "click_idx" && a.requiresPerception &&
      a.params == ClickIdx(cap.tapIdx.value - 1, 1)
  {
  }

  /** Text holding "Double TapIdx" holds "Double". */
  lemma DoubleTapIdxMentionsDouble(t: string)
    requires Contains(t, "Double TapIdx")
    ensures Contains(t, "Double")
  {
    var i :| 0 <= i <= |t| && OccursAt(t, "Double TapIdx", i);
    assert t[i..i + 6] == t[i..i + 13][..6];
    assert OccursAt(t, "Double", i);
  }

  /** A double tap by mark number n clicks twice at index n - 1. */
  lemma DoubleTapIdxClicksTwice(raw: string, cfg: AgentConfig, cap: Captures)
    requires var t := Strip(raw);
      !Contains(Lower(t), "finish") && !Contains(t, "Stop") && (!Contains(t, "Open App") || cap.openApp.None?)
      && Contains(t, "Double TapIdx") && cap.doubleTapIdx.Some?
    ensures var a := ParseAction(raw, cfg, cap);
      a.actionType == "click_idx" && a.requiresPerception &&
      a.params == ClickIdx(cap.doubleTapIdx.value - 1, 2)
  {
    DoubleTapIdxMentionsDouble(Strip(raw));
  }

  /** "Open App (name)" presses the search key, joined with "+" when it is a
      list, and then types the cleaned name and confirms it. */
  lemma OpenAppPressesSearchKey(raw: string, cfg: AgentConfig, cap: Captures)
    requires var t := Strip(raw);
      !Contains(Lower(t), "finish") && !Contains(t, "Stop") && Contains(t, "Open App") && cap.openApp.Some?
    ensures var a := ParseAction(raw, cfg, cap);
      var app := CleanArgument(cap.openApp.value);
      a.actionType == "key" && a.appName == Some(app) && a.nextActions == OpenAppSteps(app)
      && a.params == Keys(match cfg.searchKey case KeyList(keys) => Join(keys, '+') case KeyString(s) => s)
  {
  }

  /** Text no rule recognises ends the task with the text quoted in the message. */
  lemma UnparsedFinishes(raw: string, cfg: AgentConfig)
    requires var t := Strip(raw); !Contains(Lower(t), "finish") && !Contains(t, "Stop")
    ensures var none := Captures(None, None, None, None, None, None, None, None, None, None, None, None);
      ParseAction(raw, cfg, none) == FinishAction(UnparsedPrefix + Strip(raw), false)
  {
  }

  /** Tap coordinates stay on screen whenever they are denormalized. */
  lemma TapOnScreen(raw: string, cfg: AgentConfig, cap: Captures)
    requires cfg.coordinateSystem == "normalized" && cfg.screenWidth >= 1 && cfg.screenHeight >= 1
    requires cap.tap.Some? && cap.tap.value.0 <= 1000 && cap.tap.value.1 <= 1000
    requires var t := Strip(raw);
      !Contains(Lower(t), "finish") && !Contains(t, "Stop") && !Contains(t, "Open App")
      && !Contains(t, "TapIdx") && Contains(t, "Tap") && !Contains(t, "Double")
    ensures var a := ParseAction(raw, cfg, cap);
      a.params.ClickAt? && 0 <= a.params.x < cfg.screenWidth && 0 <= a.params.y < cfg.screenHeight
      && a.params.clicks == 1
  {
  }

  /** The completion test of the agent loop: finish marker, finish type, or the words in the text. */
  predicate IsFinish(metadata: Option<string>, actionType: Option<string>, actionText: string) {
    metadata == Some("finish") || actionType == Some("finish")
    || Contains(Lower(actionText), "finish") || Contains(actionText, "Stop")
  }

  /** Outcome recorded when the loop finishes: a finish caused by an error fails. */
  function FinishOutcome(isError: bool, message: Option<string>): (r: (bool, string))
    ensures r.0 <==> !isError
    ensures isError ==> r.1 == "任务失败: " + message.GetOr(DefaultFinishMessage)
    ensures !isError ==> r.1 == DefaultFinishMessage
  {
    if isError then (false, "任务失败: " + message.GetOr(DefaultFinishMessage))
    else (true, DefaultFinishMessage)
  }

  /** The executor's split of "a+b+c" into modifiers [a, b] and key c. */
  function SplitKeys(keys: string): (r: (string, seq<string>))
    ensures '+' !in keys ==> r == (keys, [])
    ensures '+' !in r.0 && forall m :: m in r.1 ==> '+' !in m
    ensures Join(r.1 + [r.0], '+') == keys
    ensures '+' in keys ==> |r.1| >= 1
  {
    if '+' in keys then
      var parts := Split(keys, '+');
      JoinSplit(keys, '+');
      assert parts == parts[..|parts| - 1] + [parts[|parts| - 1]];
      assert forall m :: m in parts[..|parts| - 1] ==> m in parts;
      (parts[|parts| - 1], parts[..|parts| - 1])
    else
      (keys, [])
  }

  datatype ClickTarget = Target(x: int, y: int) | OutOfRange(message: string)

  /**
   * `click_idx` as written: it refuses empty lists and indexes at or past the
   * end, but lets a negative index through, where Python indexing counts from
   * the end (and an index below -len raises, reported as a failure).
   */
  function ClickIdxAsWritten(idx: int, infos: seq<(int, int)>): (r: ClickTarget)
    ensures infos == [] || idx >= |infos| ==> r == OutOfRange("索引 " + IntToString(idx + 1) + " 超出范围")
    ensures 0 <= idx < |infos| ==> r == Target(infos[idx].0, infos[idx].1)
  {
    if infos == [] || idx >= |infos| then OutOfRange("索引 " + IntToString(idx + 1) + " 超出范围")
    else if idx >= 0 then Target(infos[idx].0, infos[idx].1)
    else if idx >= -|infos| then Target(infos[|infos| + idx].0, infos[|infos| + idx].1)
    else OutOfRange("list index out of range")
  }

  /** Mark number 0 in a text that reaches the TapIdx rule becomes index -1,
      and the as-written lookup clicks the LAST marked element. */
  lemma TapIdxZeroClicksLast(raw: string, cfg: AgentConfig, infos: seq<(int, int)>)
    requires !Contains(Lower(Strip(raw)), "finish") && !Contains(Strip(raw), "Stop") && !Contains(Strip(raw), "Open App")
    requires Contains(Strip(raw), "TapIdx") && !Contains(Strip(raw), "Double")
    requires infos != []
    ensures var a := ParseAction(raw, cfg, Captures(None, None, Some(0), None, None, None, None, None, None, None, None, None));
      a.params == ClickIdx(-1, 1) && ClickIdxAsWritten(a.params.index, infos) == Target(infos[|infos| - 1].0, infos[|infos| - 1].1)
  {
    TapIdxIsZeroBased(raw, cfg, Captures(None, None, Some(0), None, None, None, None, None, None, None, None, None));
    MinusOneIsLast(infos);
  }

  /** Index -1 passes the as-written range check and names the last element. */
  lemma MinusOneIsLast(infos: seq<(int, int)>)
    requires infos != []
    ensures ClickIdxAsWritten(-1, infos) == Target(infos[|infos| - 1].0, infos[|infos| - 1].1)
  {
  }

  /** The text "TapIdx (0)" reaches the TapIdx rule. */
  lemma TapIdxZeroText(t: string)
    requires t == "TapIdx (0)"
    ensures !Contains(Lower(Strip(t)), "finish") && !Contains(Strip(t), "Stop") && !Contains(Strip(t), "Open App")
      && Contains(Strip(t), "TapIdx") && !Contains(Strip(t), "Double")
  {
    StripKeeps(t);
    TapIdxZeroNoFinish(t);
    TapIdxZeroNoOthers(t);
    assert OccursAt(t, "TapIdx", 0);
  }

  lemma TapIdxZeroNoFinish(t: string)
    requires t == "TapIdx (0)"
    ensures !Contains(Lower(t), "finish")
  {
    assert 'f' !in Lower(t) by {
      forall k | 0 <= k < |t| ensures Lower(t)[k] != 'f' {
        assert Lower(t)[k] == LowerChar(t[k]);
      }
    }
    assert "finish"[0] == 'f';
    MissingCharNotContained(Lower(t), "finish", 'f');
  }

  lemma TapIdxZeroNoOthers(t: string)
    requires t == "TapIdx (0)"
    ensures !Contains(t, "Stop") && !Contains(t, "Open App") && !Contains(t, "Double")
  {
    assert "Stop"[0] == 'S' && "Open App"[0] == 'O' && "Double"[0] == 'D';
    assert forall k :: 0 <= k < |t| ==> t[k] !in "SOD";
    MissingCharNotContained(t, "Stop", 'S');
    MissingCharNotContained(t, "Open App", 'O');
    MissingCharNotContained(t, "Double", 'D');
  }

  /** A string with no white space at either end is its own `strip()`. */
  lemma StripKeeps(s: string)
    requires s != [] && !IsSpace(s[0]) && !IsSpace(s[|s| - 1])
    ensures Strip(s) == s
  {
    assert TrimStart(s) == s;
  }

  /** `click_idx` with the index checked at both ends, so only marked elements can be clicked. */
  function ClickIdxTarget(idx: int, infos: seq<(int, int)>): (r: ClickTarget)
    ensures r.Target? <==> 0 <= idx < |infos|
    ensures r.Target? ==> (r.x, r.y) == infos[idx]
    ensures 0 <= idx ==> r == ClickIdxAsWritten(idx, infos)
  {
    if idx < 0 || idx >= |infos| then OutOfRange("索引 " + IntToString(idx + 1) + " 超出范围")
    else Target(infos[idx].0, infos[idx].1)
  }

  /** Where the last piece starts when the scan resumes at k: just after the
      last separator that the left-to-right scan finds, or k when there is none. */
  function PieceStart(s: string, sep: string, k: nat): (b: nat)
    requires |sep| > 0 && k <= |s|
    ensures k <= b <= |s|
    ensures FindFrom(s, sep, k).Some? ==> b >= |sep| && OccursAt(s, sep, b - |sep|)
    ensures FindFrom(s, sep, b).None?
    decreases |s| - k
  {
    match FindFrom(s, sep, k)
    case None => k
    case Some(i) =>
      var b := PieceStart(s, sep, i + |sep|);
      assert b >= |sep| && OccursAt(s, sep, b - |sep|) by {
        if FindFrom(s, sep, i + |sep|).None? {
          assert b == i + |sep|;
        }
      }
      b
  }

  /** The text after the last "### Answer ###" piece, as `split(marker)[-1]` gives it. */
  function LastPiece(s: string, sep: string): (r: string)
    requires |sep| > 0
    ensures |r| <= |s|
    ensures !Contains(s, sep) ==> r == s
    ensures r == s[|s| - |r|..]
  {
    assert !Contains(s, sep) ==> PieceStart(s, sep, 0) == 0 by {
      assert Find(s, sep) == FindFrom(s, sep, 0);
    }
    s[PieceStart(s, sep, 0)..]
  }

  /** The last piece holds no separator. */
  lemma LastPieceHasNoSeparator(s: string, sep: string)
    requires |sep| > 0
    ensures !Contains(LastPiece(s, sep), sep)
  {
    NoneAfter(s, sep, PieceStart(s, sep, 0));
  }

  /** Where the scan finds nothing from k on, the text from k holds no separator. */
  lemma NoneAfter(s: string, sep: string, k: nat)
    requires k <= |s| && FindFrom(s, sep, k).None?
    ensures !Contains(s[k..], sep)
  {
    forall j | 0 <= j <= |s| - k ensures !OccursAt(s[k..], sep, j) {
      OccursShift(s, k, sep, j);
    }
  }

  /** An occurrence in a suffix is an occurrence in the whole text, shifted. */
  lemma OccursShift(s: string, k: nat, sub: string, j: nat)
    requires k <= |s|
    ensures OccursAt(s[k..], sub, j) <==> OccursAt(s, sub, k + j)
  {
    if j + |sub| <= |s| - k {
      assert s[k..][j..j + |sub|] == s[k + j..k + j + |sub|];
    }
  }

  /** When the text holds the separator, the last piece directly follows an
      occurrence of it. */
  lemma LastPieceFollowsSeparator(s: string, sep: string)
    requires |sep| > 0 && Contains(s, sep)
    ensures OccursAt(s, sep, |s| - |LastPiece(s, sep)| - |sep|)
  {
    assert Find(s, sep) == FindFrom(s, sep, 0);
  }

  const AnswerMarker := "### Answer ###"

  /** The first of A, B, C, D (in that order) occurring in `window`, else None. */
  function FirstLetter(window: string): (r: Option<char>)
    ensures r.Some? ==> r.value in "ABCD" && r.value in window
    ensures r.None? ==> forall c :: c in "ABCD" ==> c !in window
    ensures r.Some? ==> forall c :: c in "ABCD" && c < r.value ==> c !in window
  {
    if 'A' in window then Some('A')
    else if 'B' in window then Some('B')
    else if 'C' in window then Some('C')
    else if 'D' in window then Some('D')
    else None
  }

  /** The first ten characters of the stripped text after the last answer marker. */
  function AnswerWindow(output: string): (w: string)
    ensures w <= Strip(LastPiece(output, AnswerMarker))
    ensures |w| == Min(10, |Strip(LastPiece(output, AnswerMarker))|)
  {
    var answer := Strip(LastPiece(output, AnswerMarker));
    if |answer| <= 10 then answer else answer[..10]
  }

  /** The reflection verdict: a letter found in the answer's first ten characters, else "A" (success). */
  function ReflectAnswer(output: string): (r: char)
    ensures r in "ABCD"
    ensures !Contains(output, AnswerMarker) ==> r == 'A'
    ensures Contains(output, AnswerMarker) && r != 'A' ==> r in AnswerWindow(output) && 'A' !in AnswerWindow(output)
    ensures Contains(output, AnswerMarker) ==> forall c :: c in "ABCD" && c < r ==> c !in AnswerWindow(output)
    ensures Contains(output, AnswerMarker) && r !in AnswerWindow(output) ==> r == 'A' && forall c :: c in "ABCD" ==> c !in AnswerWindow(output)
  {
    if Contains(output, AnswerMarker) then
      match FirstLetter(AnswerWindow(output))
      case Some(c) => c
      case None => 'A'
    else 'A'
  }
}
