/**
 * Subtask decomposition for the PC agent: the decomposition prompt layout,
 * validation of the "subtask 1".."subtask n" dictionary, extraction of the
 * `{name}` parameters a subtask refers to, and their substitution with
 * Python's `str.format` rules for the cases the subtasks use.
 */
module PcSubtask {
  import opened Util

  /** The fixed texts around the user's instruction. */
  datatype PromptTexts = PromptTexts(preamble: string, formatBlock: string)

  const InstructionHeader := "\nUser Instruction:\n"

  /** The decomposition prompt: the preamble, then the instruction under its header, then the format block. */
  function SubtaskPrompt(texts: PromptTexts, instruction: string): (r: string)
    ensures StartsWith(r, texts.preamble + InstructionHeader + instruction + "\n")
    ensures EndsWith(r, texts.formatBlock)
    ensures |r| == |texts.preamble| + |InstructionHeader| + |instruction| + 1 + |texts.formatBlock|
  {
    var head := texts.preamble + InstructionHeader + instruction + "\n";
    assert (head + texts.formatBlock)[..|head|] == head;
    head + texts.formatBlock
  }

  function SubtaskKey(i: nat): string {
    "subtask " + NatToString(i)
  }

  /** The dictionary is non-empty and holds "subtask 1".."subtask n" for n its size. */
  predicate SubtaskDictValid(d: map<string, string>) {
    |d| > 0 && forall i :: 1 <= i <= |d| ==> SubtaskKey(i) in d
  }

  /** The validation loop: stops at the first missing key. */
  method ValidateSubtaskDict(d: map<string, string>) returns (ok: bool)
    ensures ok == SubtaskDictValid(d)
  {
    if |d| == 0 {
      return false;
    }
    var i := 1;
    while i <= |d|
      invariant 1 <= i <= |d| + 1
      invariant forall j :: 1 <= j < i ==> SubtaskKey(j) in d
    {
      if SubtaskKey(i) !in d {
        return false;
      }
      i := i + 1;
    }
    return true;
  }

  /** The keys "subtask 1".."subtask n" are n different strings. */
  lemma {:induction false} SubtaskKeysCard(n: nat)
    ensures |set i | 1 <= i <= n :: SubtaskKey(i)| == n
  {
    if n > 0 {
      SubtaskKeysCard(n - 1);
      var prev := set i | 1 <= i <= n - 1 :: SubtaskKey(i);
      assert (set i | 1 <= i <= n :: SubtaskKey(i)) == prev + {SubtaskKey(n)};
      assert SubtaskKey(n) !in prev by {
        if SubtaskKey(n) in prev {
          var j :| 1 <= j <= n - 1 && SubtaskKey(j) == SubtaskKey(n);
          assert NatToString(j) == SubtaskKey(j)[8..];
          assert NatToString(n) == SubtaskKey(n)[8..];
          NatToStringInjective(j, n);
        }
      }
    }
  }

  /** A valid dictionary has exactly the keys "subtask 1".."subtask n" and nothing else. */
  lemma ValidMeansExactKeys(d: map<string, string>)
    requires SubtaskDictValid(d)
    ensures d.Keys == set i | 1 <= i <= |d| :: SubtaskKey(i)
  {
    var expected := set i | 1 <= i <= |d| :: SubtaskKey(i);
    SubtaskKeysCard(|d|);
    assert expected <= d.Keys;
    assert |d.Keys| == |d|;
    assert d.Keys == expected + (d.Keys - expected);
    assert |d.Keys - expected| == 0;
  }

  /** The longest run of `\w` characters at the start of `s`. */
  function LeadingWord(s: string): (r: string)
    ensures r <= s
    ensures forall k :: 0 <= k < |r| ==> IsWordChar(r[k])
    ensures |r| < |s| ==> !IsWordChar(s[|r|])
  {
    if s == [] || !IsWordChar(s[0]) then [] else [s[0]] + LeadingWord(s[1..])
  }

  /** `re.findall(r'\{(\w+)\}', text)`: the names in braces, in order of appearance. */
  function ExtractParameters(text: string): (r: seq<string>)
    ensures forall k :: 0 <= k < |r| ==> r[k] != [] && forall c :: c in r[k] ==> IsWordChar(c)
    ensures forall k :: 0 <= k < |r| ==> Contains(text, "{" + r[k] + "}")
    ensures '{' !in text ==> r == []
    decreases |text|
  {
    if text == [] then []
    else
      var w := LeadingWord(text[1..]);
      if text[0] == '{' && w != [] && |w| + 1 < |text| && text[|w| + 1] == '}' then
        var rest := ExtractParameters(text[|w| + 2..]);
        FrontReferenceContained(text, w, rest);
        [w] + rest
      else
        var rest := ExtractParameters(text[1..]);
        ShiftContainsAll(text, 1, rest);
        assert '{' !in text ==> '{' !in text[1..];
        rest
  }

  /** The reference at the front and those found after it all occur in the text. */
  lemma FrontReferenceContained(text: string, w: string, rest: seq<string>)
    requires |w| + 1 < |text| && text[0] == '{' && w <= text[1..] && text[|w| + 1] == '}'
    requires forall k :: 0 <= k < |rest| ==> Contains(text[|w| + 2..], "{" + rest[k] + "}")
    ensures forall k :: 0 <= k < |[w] + rest| ==> Contains(text, "{" + ([w] + rest)[k] + "}")
  {
    assert text[..|w| + 2] == "{" + w + "}";
    assert OccursAt(text, "{" + w + "}", 0);
    ShiftContainsAll(text, |w| + 2, rest);
  }

  /** References found in a suffix are references in the whole string. */
  lemma ShiftContainsAll(s: string, n: nat, names: seq<string>)
    requires n <= |s|
    requires forall k :: 0 <= k < |names| ==> Contains(s[n..], "{" + names[k] + "}")
    ensures forall k :: 0 <= k < |names| ==> Contains(s, "{" + names[k] + "}")
  {
    forall k | 0 <= k < |names| ensures Contains(s, "{" + names[k] + "}") {
      ShiftContains(s, n, "{" + names[k] + "}");
    }
  }

  /** An occurrence in a suffix is an occurrence in the whole string. */
  lemma ShiftContains(s: string, n: nat, sub: string)
    requires n <= |s| && Contains(s[n..], sub)
    ensures Contains(s, sub)
  {
    var i :| 0 <= i <= |s[n..]| && OccursAt(s[n..], sub, i);
    assert s[n + i..n + i + |sub|] == s[n..][i..i + |sub|];
    assert OccursAt(s, sub, n + i);
  }

  /** A parameter reference at the front is extracted first, before the rest of the text. */
  lemma ParameterFirst(w: string, rest: string)
    requires w != [] && forall c :: c in w ==> IsWordChar(c)
    ensures ExtractParameters("{" + w + "}" + rest) == [w] + ExtractParameters(rest)
  {
    var text := "{" + w + "}" + rest;
    LeadingWordOf(w, "}" + rest);
    assert text[1..] == w + ("}" + rest);
    assert text[|w| + 2..] == rest;
  }

  lemma {:induction false} LeadingWordOf(w: string, tail: string)
    requires forall c :: c in w ==> IsWordChar(c)
    requires tail != [] && !IsWordChar(tail[0])
    ensures LeadingWord(w + tail) == w
  {
    if w != [] {
      assert (w + tail)[1..] == w[1..] + tail;
      LeadingWordOf(w[1..], tail);
    }
  }

  /** A run of word characters that a non-word character at n cuts off is
      the same in the prefix before n. */
  lemma {:induction false} LeadingWordCut(s: string, n: nat)
    requires n < |s| && !IsWordChar(s[n])
    ensures |LeadingWord(s)| <= n && LeadingWord(s[..n]) == LeadingWord(s)
  {
    if IsWordChar(s[0]) {
      assert s[..n][1..] == s[1..][..n - 1];
      LeadingWordCut(s[1..], n - 1);
    }
  }

  /** Whether the scan finds a reference at the front of `text`. */
  predicate RefAtFront(text: string) {
    text != [] && text[0] == '{' &&
    var w := LeadingWord(text[1..]);
    w != [] && |w| + 1 < |text| && text[|w| + 1] == '}'
  }

  /** One step of the scan, at a reference. */
  lemma ExtractFront(text: string)
    requires RefAtFront(text)
    ensures ExtractParameters(text) ==
      [LeadingWord(text[1..])] + ExtractParameters(text[|LeadingWord(text[1..])| + 2..])
  {
  }

  /** One step of the scan, past a character that starts no reference. */
  lemma ExtractSkip(text: string)
    requires text != [] && !RefAtFront(text)
    ensures ExtractParameters(text) == ExtractParameters(text[1..])
  {
  }

  /** The scan never carries a match across a `{`: what is found before it
      and what is found from it on add up to what is found in the whole text. */
  lemma {:induction false} ExtractSplit(text: string, i: nat)
    requires i < |text| && text[i] == '{'
    ensures ExtractParameters(text) == ExtractParameters(text[..i]) + ExtractParameters(text[i..])
    decreases i
  {
    if i == 0 {
      assert text[..0] == [] && text[0..] == text;
    } else {
      LeadingWordCut(text[1..], i - 1);
      assert text[..i][1..] == text[1..][..i - 1];
      if RefAtFront(text) {
        SplitAfterReference(text, i);
      } else {
        SplitAfterCharacter(text, i);
      }
    }
  }

  /** A reference at the front that closes before position i is also found
      at the front of the prefix before i. */
  lemma FrontReferenceKept(text: string, i: nat)
    requires 0 < i < |text| && text[i] == '{' && RefAtFront(text)
    requires |LeadingWord(text[1..])| <= i - 1 && LeadingWord(text[..i][1..]) == LeadingWord(text[1..])
    ensures var w := LeadingWord(text[1..]);
      |w| + 2 <= i && ExtractParameters(text[..i]) == [w] + ExtractParameters(text[..i][|w| + 2..])
  {
    var w := LeadingWord(text[1..]);
    assert text[|w| + 1] == '}' && |w| + 1 != i;
    assert text[..i][|w| + 1] == '}';
    assert RefAtFront(text[..i]);
    ExtractFront(text[..i]);
  }

  lemma {:induction false} SplitAfterReference(text: string, i: nat)
    requires 0 < i < |text| && text[i] == '{' && RefAtFront(text)
    requires |LeadingWord(text[1..])| <= i - 1 && LeadingWord(text[..i][1..]) == LeadingWord(text[1..])
    ensures ExtractParameters(text) == ExtractParameters(text[..i]) + ExtractParameters(text[i..])
    decreases i, 0
  {
    var pre := text[..i];
    var w := LeadingWord(text[1..]);
    var rest := text[|w| + 2..];
    ReferenceSplitSlices(text, i);
    SplitInside(rest, i - (|w| + 2), pre[|w| + 2..], text[i..]);
    FrontReferenceKept(text, i);
    ExtractFront(text);
    var X, P := ExtractParameters(text), ExtractParameters(pre);
    var R, Q, B := ExtractParameters(rest), ExtractParameters(pre[|w| + 2..]), ExtractParameters(text[i..]);
    Regroup(w, X, P, R, Q, B);
  }

  /** `ExtractSplit` with the two pieces named. */
  lemma {:induction false} SplitInside(s: string, j: nat, front: string, back: string)
    requires j < |s| && s[j] == '{' && front == s[..j] && back == s[j..]
    ensures ExtractParameters(s) == ExtractParameters(front) + ExtractParameters(back)
    decreases j + 1
  {
    if j == 0 {
      assert front == [] && back == s;
      assert ExtractParameters(front) == [];
    } else {
      ExtractSplit(s, j);
    }
  }

  /** The slices `SplitAfterReference` works with. */
  lemma ReferenceSplitSlices(text: string, i: nat)
    requires 0 < i < |text| && text[i] == '{' && RefAtFront(text)
    ensures var w := LeadingWord(text[1..]); var rest, j := text[|w| + 2..], i - (|w| + 2);
      && |w| + 2 <= i && text[..i][|w| + 2..] == rest[..j] && rest[j..] == text[i..]
      && j < |rest| && rest[j] == '{' && (j == 0 ==> rest[..j] == [])
  {
    var w := LeadingWord(text[1..]);
    assert text[|w| + 1] == '}' && |w| + 1 != i;
  }

  lemma Regroup(w: string, X: seq<string>, P: seq<string>, R: seq<string>, Q: seq<string>, B: seq<string>)
    requires X == [w] + R && P == [w] + Q && R == Q + B
    ensures X == P + B
  {
  }

  lemma Concat3(X: seq<string>, A: seq<string>, R: seq<string>, w: string, B: seq<string>)
    requires X == A + R && R == [w] + B
    ensures X == A + [w] + B
  {
  }

  lemma ReferenceSuffix(text: string, i: nat, w: string)
    requires i + |w| + 2 <= |text| && OccursAt(text, "{" + w + "}", i)
    ensures text[i] == '{' && text[i..] == "{" + w + "}" + text[i + |w| + 2..]
  {
    var ref := "{" + w + "}";
    assert text[i..] == text[i..i + |ref|] + text[i + |w| + 2..];
    assert text[i] == text[i..i + |ref|][0] == ref[0];
  }

  lemma {:induction false} SplitAfterCharacter(text: string, i: nat)
    requires 0 < i < |text| && text[i] == '{' && !RefAtFront(text)
    requires |LeadingWord(text[1..])| <= i - 1 && LeadingWord(text[..i][1..]) == LeadingWord(text[1..])
    ensures ExtractParameters(text) == ExtractParameters(text[..i]) + ExtractParameters(text[i..])
    decreases i, 0
  {
    var pre, tail := text[..i], text[1..];
    CharacterSplitSlices(text, i);
    ExtractSplit(tail, i - 1);
    ExtractSkip(text);
    ExtractSkip(pre);
    Regroup2(ExtractParameters(text), ExtractParameters(pre), ExtractParameters(tail),
      ExtractParameters(tail[..i - 1]), ExtractParameters(text[i..]));
  }

  /** The slices `SplitAfterCharacter` works with. */
  lemma CharacterSplitSlices(text: string, i: nat)
    requires 0 < i < |text| && text[i] == '{' && !RefAtFront(text)
    requires |LeadingWord(text[1..])| <= i - 1 && LeadingWord(text[..i][1..]) == LeadingWord(text[1..])
    ensures !RefAtFront(text[..i]) && text[..i][1..] == text[1..][..i - 1]
    ensures text[1..][i - 1..] == text[i..] && i - 1 < |text[1..]| && text[1..][i - 1] == '{'
  {
    assert text[..i][1..] == text[1..][..i - 1];
  }

  lemma Regroup2(X: seq<string>, P: seq<string>, T: seq<string>, Q: seq<string>, B: seq<string>)
    requires X == T && P == Q && T == Q + B
    ensures X == P + B
  {
  }

  /** Every `{name}` in the text is extracted, after the names found before it
      and before those found after it. */
  lemma ReferenceExtracted(text: string, i: nat, w: string)
    requires w != [] && forall c :: c in w ==> IsWordChar(c)
    requires i + |w| + 2 <= |text| && OccursAt(text, "{" + w + "}", i)
    ensures ExtractParameters(text) ==
      ExtractParameters(text[..i]) + [w] + ExtractParameters(text[i + |w| + 2..])
  {
    var tail := text[i + |w| + 2..];
    ReferenceSuffix(text, i, w);
    ExtractSplit(text, i);
    ParameterFirst(w, tail);
    Concat3(ExtractParameters(text), ExtractParameters(text[..i]), ExtractParameters(text[i..]), w, ExtractParameters(tail));
  }

  /** How `str.format` ended, for the field forms subtasks use. */
  datatype FormatOutcome =
    | Formatted(text: string)
    | MissingKey(key: string)      // KeyError
    | FormatError(kind: string)    // ValueError or IndexError
    | Unmodelled                   // attribute, index, conversion or format spec in a field

  predicate PlainFieldName(f: string) {
    forall c :: c in f ==> c !in "{[.!:"
  }

  function Prepend(s: string, o: FormatOutcome): (r: FormatOutcome)
    ensures o.Formatted? <==> r.Formatted?
    ensures !o.Formatted? ==> r == o
  {
    if o.Formatted? then Formatted(s + o.text) else o
  }

  /**
   * `s.format(**answers)`: "{{" and "}}" stand for one brace, "{name}" for the
   * named answer; a lone "}" or an unclosed "{" is a ValueError, and an empty or
   * numeric field is a positional reference with no positional arguments
   * (IndexError).
   */
  function Format(s: string, answers: map<string, string>): (r: FormatOutcome)
    ensures '{' !in s && '}' !in s ==> r == Formatted(s)
    decreases |s|
  {
    if s == [] then Formatted([])
    else if s[0] == '{' then
      if |s| > 1 && s[1] == '{' then Prepend("{", Format(s[2..], answers))
      else
        match Find(s[1..], "}")
        case None => FormatError("ValueError")
        case Some(j) =>
          var field := s[1..j + 1];
          if !PlainFieldName(field) then Unmodelled
          else if field == [] || AllDigits(field) then FormatError("IndexError")
          else if field in answers then Prepend(answers[field], Format(s[j + 2..], answers))
          else MissingKey(field)
    else if s[0] == '}' then
      if |s| > 1 && s[1] == '}' then Prepend("}", Format(s[2..], answers))
      else FormatError("ValueError")
    else
      assert '{' !in s && '}' !in s ==> s == [s[0]] + s[1..];
      Prepend([s[0]], Format(s[1..], answers))
  }

  /** Every brace written twice. */
  function DoubleBraces(s: string): (r: string)
    ensures '{' !in s && '}' !in s ==> r == s
  {
    if s == [] then []
    else if s[0] == '{' || s[0] == '}' then [s[0], s[0]] + DoubleBraces(s[1..])
    else
      assert '{' !in s && '}' !in s ==> s == [s[0]] + s[1..];
      [s[0]] + DoubleBraces(s[1..])
  }

  /** Formatting a text whose braces are all doubled gives the text back, whatever the answers. */
  lemma {:induction false} FormatDoubled(s: string, answers: map<string, string>)
    ensures Format(DoubleBraces(s), answers) == Formatted(s)
  {
    if s != [] {
      FormatDoubled(s[1..], answers);
      var d := DoubleBraces(s);
      if s[0] == '{' || s[0] == '}' {
        assert d[2..] == DoubleBraces(s[1..]);
      } else {
        assert d[1..] == DoubleBraces(s[1..]);
      }
      assert s == [s[0]] + s[1..];
    }
  }

  /** The escaping step: `{'` becomes `{{'` and `'}` becomes `'}}`, so dict literals survive formatting. */
  function EscapeDictLiterals(text: string): (r: string)
    ensures '{' !in text && '}' !in text ==> r == text
  {
    assert '{' !in text && '}' !in text ==> !Contains(text, "{'") && !Contains(text, "'}") by {
      if '{' !in text && '}' !in text {
        MissingCharNotContained(text, "{'", '{');
        MissingCharNotContained(text, "'}", '}');
      }
    }
    ReplaceAll(ReplaceAll(text, "{'", "{{'"), "'}", "'}}")
  }

  /** What substitution returns: a text, or the exception `str.format` raised past it. */
  datatype Substitution = Text(value: string) | Raises(kind: string) | NotModelled

  /** Substitution of answers into a subtask; a missing key gives back the original text. */
  function SubstituteParameters(text: string, answers: map<string, string>): (r: Substitution)
    ensures '{' !in text && '}' !in text ==> r == Text(text)
    ensures Format(EscapeDictLiterals(text), answers).MissingKey? ==> r == Text(text)
    ensures Format(EscapeDictLiterals(text), answers).Formatted? ==>
      r == Text(Format(EscapeDictLiterals(text), answers).text)
  {
    match Format(EscapeDictLiterals(text), answers)
    case Formatted(t) => Text(t)
    case MissingKey(_) => Text(text)
    case FormatError(kind) => Raises(kind)
    case Unmodelled => NotModelled
  }

  /** A reference to an answer that is missing leaves the subtask text exactly as it was. */
  lemma MissingAnswerKeepsText(prefix: string, key: string, suffix: string, answers: map<string, string>)
    requires '{' !in prefix && '}' !in prefix && '\'' !in prefix
    requires key != [] && !AllDigits(key) && (forall c :: c in key ==> IsWordChar(c))
    requires key !in answers
    requires suffix == [] || suffix[0] != '\''
    ensures SubstituteParameters(prefix + "{" + key + "}" + suffix, answers) ==
      Text(prefix + "{" + key + "}" + suffix)
  {
    FormatEscapedReference(prefix, key, suffix, answers);
  }

  /** A present answer is put in place of its reference. */
  lemma PresentAnswerSubstituted(prefix: string, key: string, suffix: string, answers: map<string, string>)
    requires '{' !in prefix && '}' !in prefix && '\'' !in prefix
    requires '{' !in suffix && '}' !in suffix
    requires key != [] && !AllDigits(key) && (forall c :: c in key ==> IsWordChar(c))
    requires key in answers
    requires suffix == [] || suffix[0] != '\''
    ensures SubstituteParameters(prefix + "{" + key + "}" + suffix, answers) ==
      Text(prefix + answers[key] + suffix)
  {
    FormatEscapedReference(prefix, key, suffix, answers);
    assert EscapeDictLiterals(suffix) == suffix;
    assert Format(suffix, answers) == Formatted(suffix);
    assert prefix + (answers[key] + suffix) == prefix + answers[key] + suffix;
  }

  /** Formatting the escaped text of `prefix{key}suffix`. */
  lemma FormatEscapedReference(prefix: string, key: string, suffix: string, answers: map<string, string>)
    requires '{' !in prefix && '}' !in prefix && '\'' !in prefix
    requires key != [] && !AllDigits(key) && (forall c :: c in key ==> IsWordChar(c))
    requires suffix == [] || suffix[0] != '\''
    ensures Format(EscapeDictLiterals(prefix + "{" + key + "}" + suffix), answers) ==
      if key in answers then Prepend(prefix, Prepend(answers[key], Format(EscapeDictLiterals(suffix), answers)))
      else MissingKey(key)
  {
    var tailE := "{" + key + "}" + EscapeDictLiterals(suffix);
    EscapeOfReference(prefix, key, suffix);
    FormatPlainPrefix(prefix, tailE, answers);
    FormatReference(key, EscapeDictLiterals(suffix), answers);
  }

  /** Formatting at a `{name}` reference: the answer, or the missing key. */
  lemma FormatReference(key: string, rest: string, answers: map<string, string>)
    requires key != [] && !AllDigits(key) && (forall c :: c in key ==> IsWordChar(c))
    ensures Format("{" + key + "}" + rest, answers) ==
      if key in answers then Prepend(answers[key], Format(rest, answers)) else MissingKey(key)
  {
    var s := "{" + key + "}" + rest;
    assert s[1..] == key + "}" + rest;
    FindAfterWord(key, rest);
    assert s[1..|key| + 1] == key;
    assert s[|key| + 2..] == rest;
    assert s[1] == key[0] && key[0] in key;
    assert PlainFieldName(key) by {
      forall c | c in key ensures c !in "{[.!:" {
        assert IsWordChar(c);
      }
    }
    FormatAtField(s, |key|, answers);
  }

  /** One step of `Format` at a single brace opening a plain, named field. */
  lemma FormatAtField(s: string, j: nat, answers: map<string, string>)
    requires |s| > 1 && s[0] == '{' && s[1] != '{'
    requires Find(s[1..], "}") == Some(j)
    requires PlainFieldName(s[1..j + 1]) && s[1..j + 1] != [] && !AllDigits(s[1..j + 1])
    ensures Format(s, answers) ==
      if s[1..j + 1] in answers then Prepend(answers[s[1..j + 1]], Format(s[j + 2..], answers))
      else MissingKey(s[1..j + 1])
  {
  }

  /** The escaping step does not touch a plain `{name}` reference. */
  lemma EscapeOfReference(prefix: string, key: string, suffix: string)
    requires '{' !in prefix && '}' !in prefix && '\'' !in prefix
    requires key != [] && (forall c :: c in key ==> IsWordChar(c))
    requires suffix == [] || suffix[0] != '\''
    ensures EscapeDictLiterals(prefix + "{" + key + "}" + suffix) ==
      prefix + ("{" + key + "}" + EscapeDictLiterals(suffix))
  {
    ReferenceQuoteFree(prefix, key);
    EscapeKeepsQuoteFree(prefix + "{" + key + "}", suffix);
    ReferenceRegroup(prefix, key, EscapeDictLiterals(suffix));
  }

  lemma ReferenceQuoteFree(prefix: string, key: string)
    requires '\'' !in prefix && forall c :: c in key ==> IsWordChar(c)
    ensures '\'' !in prefix + "{" + key + "}"
  {
  }

  lemma ReferenceRegroup(prefix: string, key: string, rest: string)
    ensures prefix + "{" + key + "}" + rest == prefix + ("{" + key + "}" + rest)
  {
  }

  /** Escaping leaves a quote-free head alone when the rest does not start with a quote. */
  lemma EscapeKeepsQuoteFree(head: string, tail: string)
    requires '\'' !in head
    requires tail == [] || tail[0] != '\''
    ensures EscapeDictLiterals(head + tail) == head + EscapeDictLiterals(tail)
  {
    var r1 := ReplaceAll(tail, "{'", "{{'");
    ReplaceKeepsQuoteFree(head, tail, "{'", "{{'");
    assert r1 == [] || r1[0] != '\'' by {
      ReplaceHead(tail, "{'", "{{'");
    }
    ReplaceKeepsQuoteFree(head, r1, "'}", "'}}");
    EscapeUnfold(head + tail);
    EscapeUnfold(tail);
  }

  lemma EscapeUnfold(t: string)
    ensures EscapeDictLiterals(t) == ReplaceAll(ReplaceAll(t, "{'", "{{'"), "'}", "'}}")
  {
  }

  /** Replacing a pattern that holds a quote leaves a quote-free head alone. */
  lemma {:induction false} ReplaceKeepsQuoteFree(head: string, tail: string, pat: string, rep: string)
    requires pat == "{'" || pat == "'}"
    requires '\'' !in head
    requires tail == [] || tail[0] != '\''
    ensures ReplaceAll(head + tail, pat, rep) == head + ReplaceAll(tail, pat, rep)
    decreases |head|
  {
    if head == [] {
      assert head + tail == tail;
    } else {
      ConcatTail(head, tail);
      NoPatternAtHead(head, tail, pat);
      ReplaceStep(head + tail, pat, rep);
      TailLacks(head, '\'');
      ReplaceKeepsQuoteFree(head[1..], tail, pat, rep);
      ConsRegroup(head, ReplaceAll(tail, pat, rep));
    }
  }

  lemma NoPatternAtHead(head: string, tail: string, pat: string)
    requires pat == "{'" || pat == "'}"
    requires head != [] && '\'' !in head
    requires tail == [] || tail[0] != '\''
    ensures !StartsWith(head + tail, pat)
  {
    var s := head + tail;
    assert s[0] == head[0] && head[0] in head;
    if |head| >= 2 {
      assert s[1] == head[1] && head[1] in head;
    } else if |s| >= 2 {
      assert s[1] == tail[0];
    }
    if |s| >= 2 {
      assert s[..2] == [s[0], s[1]];
    }
  }

  lemma ReplaceHead(s: string, pat: string, rep: string)
    requires pat == "{'" && rep == "{{'"
    requires s == [] || s[0] != '\''
    ensures var r := ReplaceAll(s, pat, rep); r == [] || r[0] != '\''
  {
  }

  /** `Find` of the closing brace right after a word. */
  lemma FindAfterWord(w: string, rest: string)
    requires forall c :: c in w ==> IsWordChar(c)
    ensures Find(w + "}" + rest, "}") == Some(|w|)
  {
    var s := w + "}" + rest;
    assert OccursAt(s, "}", |w|);
    forall j | 0 <= j < |w| ensures !OccursAt(s, "}", j) {
      assert s[j] == w[j];
      assert IsWordChar(w[j]);
    }
  }

  /** Text before the first brace is copied as it is. */
  lemma {:induction false} FormatPlainPrefix(prefix: string, s: string, answers: map<string, string>)
    requires '{' !in prefix && '}' !in prefix
    ensures Format(prefix + s, answers) == Prepend(prefix, Format(s, answers))
  {
    if prefix != [] {
      var t := prefix + s;
      assert t[0] == prefix[0] && prefix[0] in prefix;
      assert t[1..] == prefix[1..] + s;
      assert Format(t, answers) == Prepend([t[0]], Format(t[1..], answers));
      assert '{' !in prefix[1..] && '}' !in prefix[1..] by {
        assert forall c :: c in prefix[1..] ==> c in prefix;
      }
      FormatPlainPrefix(prefix[1..], s, answers);
      PrependTwice([prefix[0]], prefix[1..], Format(s, answers));
      assert prefix == [prefix[0]] + prefix[1..];
    } else {
      assert prefix + s == s;
      var o := Format(s, answers);
      assert o.Formatted? ==> [] + o.text == o.text;
    }
  }

  lemma PrependTwice(a: string, b: string, o: FormatOutcome)
    ensures Prepend(a, Prepend(b, o)) == Prepend(a + b, o)
  {
    if o.Formatted? {
      assert a + (b + o.text) == (a + b) + o.text;
    }
  }
}
