/**
 * The input guards and the reply-salvage pipeline of the keyword
 * categorisation call: the reply text is trimmed, cut down to the span from
 * the first `{` to the last `}`, and handed to the JSON parser; on a parse
 * error it is repaired once (Python literals rewritten, missing `}` appended)
 * and parsed again; on a second error the lines holding the first balanced
 * object are parsed; on a third error an error record is returned.
 *
 * The language model and the JSON parser are function parameters: the model
 * maps the developer prompt and the user message to a reply text or a
 * failure, and the parser maps a text to a value or an error message
 * (`str(e)` of the `JSONDecodeError`).
 */
module ResponseSalvage {
  import opened Wrappers
  import opened Text

  datatype ParseResult<V> = Parsed(value: V) | ParseError(message: string)

  datatype CallReply = Reply(text: string) | CallFailed(message: string)

  /** What the categorisation returns: the parsed value, or a dictionary `{"error": message}`. */
  datatype Outcome<V> = Value(v: V) | ErrorRecord(message: string)

  const BlogHeading := "Blog Content:\n"
  const CsvHeading := "\n\nKeyword Data (CSV):\n"
  const Instruction := "\n\nPlease analyze the blog content and keyword data, then return the categorized keywords in the specified JSON format."
  const MissingInputs := "Blog text and/or keyword data missing. Please provide the necessary inputs."
  const CallErrorPrefix := "Error calling OpenAI API: "
  const ParseErrorPrefix := "Failed to parse JSON response from GPT-5.2. Error: "
  const PreviewLength := 300

  /** The user message sent with the developer prompt. */
  function UserMessage(blog: string, csv: string): (m: string)
    ensures var b := |BlogHeading|; var c := b + |blog| + |CsvHeading|;
      && |m| == c + |csv| + |Instruction|
      && m[..b] == BlogHeading && m[b..b + |blog|] == blog
      && m[b + |blog|..c] == CsvHeading && m[c..c + |csv|] == csv
      && m[c + |csv|..] == Instruction
  {
    BlogHeading + blog + CsvHeading + csv + Instruction
  }

  /** `s.find(c)`: the first position of `c`. */
  function IndexOf(s: string, c: char): (r: Option<nat>)
    ensures r.Some? ==> r.value < |s| && s[r.value] == c && c !in s[..r.value]
    ensures r.None? ==> c !in s
    decreases |s|
  {
    if s == [] then None
    else if s[0] == c then Some(0)
    else
      match IndexOf(s[1..], c)
      case None => None
      case Some(k) =>
        assert s[..k + 1] == [s[0]] + s[1..][..k];
        Some(k + 1)
  }

  /** `s.rfind(c)`: the last position of `c`. */
  function LastIndexOf(s: string, c: char): (r: Option<nat>)
    ensures r.Some? ==> r.value < |s| && s[r.value] == c && c !in s[r.value + 1..]
    ensures r.None? ==> c !in s
    decreases |s|
  {
    if s == [] then None
    else if s[|s| - 1] == c then Some(|s| - 1)
    else
      match LastIndexOf(s[..|s| - 1], c)
      case None => None
      case Some(k) =>
        assert s[k + 1..] == s[..|s| - 1][k + 1..] + [s[|s| - 1]];
        Some(k)
  }

  /** The parse candidate: from the first `{` to the last `}` when that `}` comes later, else everything. */
  function BraceSpan(t: string): (r: string)
    ensures |r| <= |t|
    ensures r == t || (|r| >= 2 && r[0] == '{' && r[|r| - 1] == '}')
  {
    var i := IndexOf(t, '{');
    var j := LastIndexOf(t, '}');
    if i.Some? && j.Some? && j.value > i.value then t[i.value..j.value + 1] else t
  }

  /**
   * The slicing rule read from positions: with `i` the first `{` and `j` the
   * last `}`, the candidate is `t[i..j+1]` when `i < j`, and `t` itself when
   * either brace is missing or the last `}` comes before the first `{`.
   */
  lemma BraceSpanRule(t: string, i: nat, j: nat)
    requires i < |t| && t[i] == '{' && '{' !in t[..i]
    requires j < |t| && t[j] == '}' && '}' !in t[j + 1..]
    ensures BraceSpan(t) == if i < j then t[i..j + 1] else t
  {
    assert t[i] in t && t[j] in t;
    var fi := IndexOf(t, '{').value;
    var lj := LastIndexOf(t, '}').value;
    assert fi == i by {
      assert forall k :: 0 <= k < i ==> t[..i][k] == t[k];
      assert forall k :: 0 <= k < fi ==> t[..fi][k] == t[k];
    }
    assert lj == j by {
      assert forall k :: lj < k < |t| ==> t[lj + 1..][k - lj - 1] == t[k];
      assert forall k :: j < k < |t| ==> t[j + 1..][k - j - 1] == t[k];
    }
  }

  lemma BraceSpanWithoutBraces(t: string)
    requires '{' !in t || '}' !in t
    ensures BraceSpan(t) == t
  {
  }

  /** Cutting a candidate down again changes nothing. */
  lemma BraceSpanIdempotent(t: string)
    ensures BraceSpan(BraceSpan(t)) == BraceSpan(t)
  {
    var r := BraceSpan(t);
    if r != t {
      assert IndexOf(r, '{') == Some(0);
      assert LastIndexOf(r, '}') == Some(|r| - 1);
      assert r[0..|r|] == r;
    }
  }

  /** The four literal rewrites, in order: `'`, `None`, `True`, `False`. */
  function Substitute(t: string): string {
    var quotes := Replace(t, "'", "\"");
    var nulls := Replace(quotes, "None", "null");
    var trues := Replace(nulls, "True", "true");
    Replace(trues, "False", "false")
  }

  /** The rewrites leave the braces alone, so padding counts the candidate's own braces. */
  lemma SubstituteKeepsBraces(t: string)
    ensures Count(Substitute(t), '{') == Count(t, '{')
    ensures Count(Substitute(t), '}') == Count(t, '}')
  {
    assert Count(Substitute(t), '{') == Count(t, '{') by {
      LiteralsWithout('{');
      ReplacesKeepCount(t, "'", "\"", "None", "null", "True", "true", "False", "false", '{');
    }
    assert Count(Substitute(t), '}') == Count(t, '}') by {
      LiteralsWithout('}');
      ReplacesKeepCount(t, "'", "\"", "None", "null", "True", "true", "False", "false", '}');
    }
  }

  /** None of the rewritten literals, before or after, holds a brace. */
  lemma LiteralsWithout(c: char)
    requires c == '{' || c == '}'
    ensures c !in "'" && c !in "\"" && c !in "None" && c !in "null"
    ensures c !in "True" && c !in "true" && c !in "False" && c !in "false"
  {
    assert "None" == ['N', 'o', 'n', 'e'] && "null" == ['n', 'u', 'l', 'l'];
    assert "True" == ['T', 'r', 'u', 'e'] && "true" == ['t', 'r', 'u', 'e'];
    assert "False" == ['F', 'a', 'l', 's', 'e'] && "false" == ['f', 'a', 'l', 's', 'e'];
  }

  /** Four replacements in a row keep the count of a character none of them mentions. */
  lemma ReplacesKeepCount(t: string, p1: string, r1: string, p2: string, r2: string,
                          p3: string, r3: string, p4: string, r4: string, c: char)
    requires p1 != [] && p2 != [] && p3 != [] && p4 != []
    requires c !in p1 && c !in r1 && c !in p2 && c !in r2 && c !in p3 && c !in r3 && c !in p4 && c !in r4
    ensures Count(Replace(Replace(Replace(Replace(t, p1, r1), p2, r2), p3, r3), p4, r4), c) == Count(t, c)
  {
    var a := Replace(t, p1, r1);
    var b := Replace(a, p2, r2);
    var d := Replace(b, p3, r3);
    assert Count(a, c) == Count(t, c) by {
      ReplaceKeepsCount(t, p1, r1, c);
    }
    assert Count(b, c) == Count(a, c) by {
      ReplaceKeepsCount(a, p2, r2, c);
    }
    assert Count(d, c) == Count(b, c) by {
      ReplaceKeepsCount(b, p3, r3, c);
    }
    ReplaceKeepsCount(d, p4, r4, c);
  }

  /** Three replacements in a row keep the count of a character none of them mentions. */
  lemma ThreeReplacesKeepCount(t: string, p2: string, r2: string, p3: string, r3: string,
                               p4: string, r4: string, c: char)
    requires p2 != [] && p3 != [] && p4 != []
    requires c !in p2 && c !in r2 && c !in p3 && c !in r3 && c !in p4 && c !in r4
    ensures Count(Replace(Replace(Replace(t, p2, r2), p3, r3), p4, r4), c) == Count(t, c)
  {
    var b := Replace(t, p2, r2);
    var d := Replace(b, p3, r3);
    assert Count(b, c) == Count(t, c) by {
      ReplaceKeepsCount(t, p2, r2, c);
    }
    assert Count(d, c) == Count(b, c) by {
      ReplaceKeepsCount(b, p3, r3, c);
    }
    ReplaceKeepsCount(d, p4, r4, c);
  }

  /** Every single quote is rewritten, including those inside string values. */
  lemma SubstituteRemovesQuotes(t: string)
    ensures '\'' !in Substitute(t)
    ensures |Replace(t, "'", "\"")| == |t|
    ensures forall i :: 0 <= i < |t| ==> Replace(t, "'", "\"")[i] == if t[i] == '\'' then '"' else t[i]
  {
    var quotes := Replace(t, "'", "\"");
    assert "'" == ['\''] && "\"" == ['"'];
    ReplaceChar(t, '\'', '"');
    assert Count(quotes, '\'') == 0 by {
      assert forall i :: 0 <= i < |quotes| ==> quotes[i] != '\'';
    }
    ThreeReplacesKeepCount(quotes, "None", "null", "True", "true", "False", "false", '\'');
  }

  /** Text free of the four Python literals passes through unchanged. */
  lemma SubstituteAbsent(t: string)
    requires !Contains(t, "'") && !Contains(t, "None") && !Contains(t, "True") && !Contains(t, "False")
    ensures Substitute(t) == t
  {
    ReplaceAbsent(t, "'", "\"");
    ReplaceAbsent(t, "None", "null");
    ReplaceAbsent(t, "True", "true");
    ReplaceAbsent(t, "False", "false");
  }

  /** `c * n` */
  function Repeat(c: char, n: nat): (r: string)
    ensures |r| == n
    ensures forall i :: 0 <= i < n ==> r[i] == c
    ensures Count(r, c) == n
    ensures forall d :: d != c ==> Count(r, d) == 0
    decreases n
  {
    if n == 0 then [] else [c] + Repeat(c, n - 1)
  }

  /** Closing braces appended for every `{` that has no `}` to match. */
  function Pad(t: string): (r: string)
    ensures |t| <= |r| && r[..|t|] == t
    ensures forall i :: |t| <= i < |r| ==> r[i] == '}'
    ensures Count(r, '{') == Count(t, '{')
    ensures Count(r, '{') <= Count(r, '}')
    ensures Count(t, '{') <= Count(t, '}') ==> r == t
    ensures Count(t, '{') > Count(t, '}') ==> Count(r, '}') == Count(r, '{')
  {
    var open := Count(t, '{');
    var close := Count(t, '}');
    if open > close then
      var r := t + Repeat('}', open - close);
      assert multiset(r) == multiset(t) + multiset(Repeat('}', open - close));
      r
    else t
  }

  /** Padded text needs no more padding. */
  lemma PadIdempotent(t: string)
    ensures Pad(Pad(t)) == Pad(t)
  {
  }

  /** The text of the single second parse: the rewrites first, then the padding. */
  function Repaired(candidate: string): (r: string)
    ensures Count(r, '{') == Count(candidate, '{')
    ensures Count(r, '{') <= Count(r, '}')
    ensures '\'' !in r
  {
    var fixed := Substitute(candidate);
    SubstituteKeepsBraces(candidate);
    SubstituteRemovesQuotes(candidate);
    Pad(fixed)
  }

  /** The change of the running brace balance across one line. */
  function Delta(line: string): int {
    Count(line, '{') - Count(line, '}')
  }

  /** The brace balance of `lines[s..k]`. */
  function Balance(lines: seq<string>, s: nat, k: nat): int
    requires s <= k <= |lines|
    decreases k - s
  {
    if k == s then 0 else Balance(lines, s, k - 1) + Delta(lines[k - 1])
  }

  /** Line `k` ends a run that started at line `s`: the balance is back to 0 and the line has a `}`. */
  predicate Closes(lines: seq<string>, s: nat, k: nat) {
    s <= k < |lines| && Balance(lines, s, k + 1) == 0 && '}' in lines[k]
  }

  /**
   * The lines kept by the brace-counting scan from line `i` on, given
   * whether the object has started and the running balance.
   */
  function Extracted(lines: seq<string>, i: nat, started: bool, balance: int): seq<string>
    requires i <= |lines|
    decreases |lines| - i
  {
    if i == |lines| then []
    else
      var line := lines[i];
      if !started && '{' !in line then Extracted(lines, i + 1, false, balance)
      else
        var b := balance + Delta(line);
        if b == 0 && '}' in line then [line] else [line] + Extracted(lines, i + 1, true, b)
  }

  /** The scan once started at line `s`: it keeps lines up to the first that closes the run, or to the end. */
  lemma {:induction false} ExtractedFrom(lines: seq<string>, s: nat, i: nat) returns (e: nat)
    requires s <= i <= |lines|
    requires forall k :: s <= k < i ==> !Closes(lines, s, k)
    ensures i <= e <= |lines|
    ensures Extracted(lines, i, true, Balance(lines, s, i)) == lines[i..e]
    ensures forall k :: s <= k < e - 1 ==> !Closes(lines, s, k)
    ensures e == |lines| || (i < e && Closes(lines, s, e - 1))
    decreases |lines| - i
  {
    if i == |lines| {
      e := i;
    } else {
      assert Balance(lines, s, i + 1) == Balance(lines, s, i) + Delta(lines[i]);
      if Closes(lines, s, i) {
        e := i + 1;
      } else {
        e := ExtractedFrom(lines, s, i + 1);
        assert lines[i..e] == [lines[i]] + lines[i + 1..e];
      }
    }
  }

  /** Before the start, the scan skips every line without a `{`. */
  lemma {:induction false} ExtractedSkip(lines: seq<string>, i: nat) returns (s: nat)
    requires i <= |lines|
    ensures i <= s <= |lines|
    ensures forall k :: i <= k < s ==> '{' !in lines[k]
    ensures s < |lines| ==> '{' in lines[s] && Extracted(lines, i, false, 0) == Extracted(lines, s, true, 0)
    ensures s == |lines| ==> Extracted(lines, i, false, 0) == []
    decreases |lines| - i
  {
    if i == |lines| || '{' in lines[i] {
      s := i;
    } else {
      s := ExtractedSkip(lines, i + 1);
    }
  }

  /**
   * The extracted lines are one contiguous run `lines[s..e]`: `s` is the
   * first line holding a `{` (none is kept when there is none), and `e - 1`
   * is the first line from `s` on where the running balance is 0 and the
   * line holds a `}`, or the last line when no line does.
   */
  lemma ExtractedRun(lines: seq<string>) returns (s: nat, e: nat)
    ensures s <= e <= |lines|
    ensures Extracted(lines, 0, false, 0) == lines[s..e]
    ensures forall k :: 0 <= k < s ==> '{' !in lines[k]
    ensures s == |lines| ==> e == s
    ensures s < |lines| ==> '{' in lines[s] && s < e
    ensures s < |lines| ==> forall k :: s <= k < e - 1 ==> !Closes(lines, s, k)
    ensures s < |lines| ==> e == |lines| || Closes(lines, s, e - 1)
  {
    s := ExtractedSkip(lines, 0);
    if s == |lines| {
      e := s;
    } else {
      e := ExtractedFrom(lines, s, s);
    }
  }

  /** The brace-counting loop over the lines of the repaired text. */
  method ExtractObjectLines(lines: seq<string>) returns (kept: seq<string>)
    ensures kept == Extracted(lines, 0, false, 0)
  {
    kept := [];
    var started := false;
    var balance := 0;
    var i := 0;
    while i < |lines|
      invariant 0 <= i <= |lines|
      invariant Extracted(lines, 0, false, 0) == kept + Extracted(lines, i, started, balance)
      invariant !started ==> balance == 0
    {
      var line := lines[i];
      ghost var started0, balance0, kept0 := started, balance, kept;
      if '{' in line {
        started := true;
      }
      if started {
        kept := kept + [line];
        balance := balance + Count(line, '{') - Count(line, '}');
        if balance == 0 && '}' in line {
          assert Extracted(lines, i, started0, balance0) == [line];
          assert kept == kept0 + [line];
          break;
        }
        assert Extracted(lines, i, started0, balance0) == [line] + Extracted(lines, i + 1, started, balance);
      } else {
        assert Extracted(lines, i, started0, balance0) == Extracted(lines, i + 1, started, balance);
      }
      i := i + 1;
    }
  }

  /** `text[:300]` */
  function Preview(text: string): (r: string)
    ensures |r| <= PreviewLength && |r| <= |text|
    ensures r == text[..|r|]
    ensures |text| <= PreviewLength ==> r == text
    ensures |text| > PreviewLength ==> |r| == PreviewLength
  {
    if |text| <= PreviewLength then text else text[..PreviewLength]
  }

  /** The last-resort message: the second parse's error and a preview of the stripped reply. */
  function FailureMessage(detail: string, stripped: string): (m: string)
    ensures StartsWith(m, ParseErrorPrefix + detail)
    ensures EndsWith(m, Preview(stripped) + "...")
    ensures Contains(m, detail)
  {
    var head := ParseErrorPrefix + detail;
    var m := head + ". Response preview: " + Preview(stripped) + "...";
    assert m[..|head|] == head;
    assert m[|ParseErrorPrefix|..|ParseErrorPrefix| + |detail|] == detail;
    ContainsAt(m, detail, |ParseErrorPrefix|);
    m
  }

  /** The text of the third parse: the lines of the repaired text that hold its first balanced object. */
  function ObjectText(fixed: string): string {
    JoinLines(Extracted(SplitLines(fixed), 0, false, 0))
  }

  /**
   * The three texts the parser may see, in order: the candidate, its
   * repair, and the object lines extracted from the repair.
   */
  function Stages(candidate: string): (stages: seq<string>)
    ensures |stages| == 3
    ensures stages[0] == candidate && stages[1] == Repaired(candidate)
    ensures stages[2] == ObjectText(stages[1])
  {
    var fixed := Repaired(candidate);
    [candidate, fixed, ObjectText(fixed)]
  }

  /**
   * `attempts` are the texts handed to the parser: a prefix of `stages`
   * that goes on past a stage only when its parse raised an error. The
   * outcome is the last parse's value, or, when all three raised, the error
   * record quoting the second error and the stripped reply.
   */
  ghost predicate StagedRun<V>(parse: string -> ParseResult<V>, stages: seq<string>, stripped: string,
                               attempts: seq<string>, outcome: Outcome<V>)
  {
    && |stages| == 3
    && 1 <= |attempts| <= 3
    && attempts == stages[..|attempts|]
    && (forall k :: 0 <= k < |attempts| - 1 ==> parse(attempts[k]).ParseError?)
    && (|attempts| < 3 ==> parse(attempts[|attempts| - 1]).Parsed?)
    && outcome == match parse(attempts[|attempts| - 1])
                  case Parsed(v) => Value(v)
                  case ParseError(_) => ErrorRecord(FailureMessage(parse(stages[1]).message, stripped))
  }

  ghost predicate SalvageRun<V>(reply: string, parse: string -> ParseResult<V>,
                                attempts: seq<string>, outcome: Outcome<V>)
  {
    StagedRun(parse, Stages(BraceSpan(Strip(reply))), Strip(reply), attempts, outcome)
  }

  /** A run is determined by the stages and the parser: nothing else picks the attempts or the outcome. */
  lemma StagedRunUnique<V>(parse: string -> ParseResult<V>, stages: seq<string>, stripped: string,
                           a1: seq<string>, o1: Outcome<V>, a2: seq<string>, o2: Outcome<V>)
    requires StagedRun(parse, stages, stripped, a1, o1) && StagedRun(parse, stages, stripped, a2, o2)
    ensures a1 == a2 && o1 == o2
  {
    assert forall k :: 0 <= k < |a1| && k < |a2| ==> a1[k] == a2[k];
  }

  /** When the brace span parses, it is the only text parsed, and its value is the result. */
  lemma FirstParseWins<V>(reply: string, parse: string -> ParseResult<V>, attempts: seq<string>, outcome: Outcome<V>)
    requires SalvageRun(reply, parse, attempts, outcome)
    requires parse(BraceSpan(Strip(reply))).Parsed?
    ensures attempts == [BraceSpan(Strip(reply))]
    ensures outcome == Value(parse(BraceSpan(Strip(reply))).value)
  {
    var stages := Stages(BraceSpan(Strip(reply)));
    assert stages[0] == BraceSpan(Strip(reply));
    StagedFirst(parse, stages, Strip(reply), attempts, outcome);
  }

  lemma StagedFirst<V>(parse: string -> ParseResult<V>, stages: seq<string>, stripped: string,
                       attempts: seq<string>, outcome: Outcome<V>)
    requires StagedRun(parse, stages, stripped, attempts, outcome)
    requires parse(stages[0]).Parsed?
    ensures attempts == [stages[0]] && outcome == Value(parse(stages[0]).value)
  {
    assert attempts[0] == stages[0];
  }

  /**
   * The repair feeds one parse only: when the first parse fails, the second
   * text is the repaired candidate, and the error record, if any, quotes that
   * parse's error and at most 300 characters of the stripped reply.
   */
  lemma RepairParsedOnce<V>(reply: string, parse: string -> ParseResult<V>, attempts: seq<string>, outcome: Outcome<V>)
    requires SalvageRun(reply, parse, attempts, outcome)
    requires parse(BraceSpan(Strip(reply))).ParseError?
    ensures |attempts| >= 2 && attempts[1] == Repaired(BraceSpan(Strip(reply)))
    ensures outcome.ErrorRecord? ==>
      |attempts| == 3 && parse(attempts[1]).ParseError?
      && outcome.message == FailureMessage(parse(attempts[1]).message, Strip(reply))
  {
    var stages := Stages(BraceSpan(Strip(reply)));
    assert stages[0] == BraceSpan(Strip(reply)) && stages[1] == Repaired(BraceSpan(Strip(reply)));
    StagedSecond(parse, stages, Strip(reply), attempts, outcome);
  }

  lemma StagedSecond<V>(parse: string -> ParseResult<V>, stages: seq<string>, stripped: string,
                        attempts: seq<string>, outcome: Outcome<V>)
    requires StagedRun(parse, stages, stripped, attempts, outcome)
    requires parse(stages[0]).ParseError?
    ensures |attempts| >= 2 && attempts[1] == stages[1]
    ensures outcome.ErrorRecord? ==>
      |attempts| == 3 && parse(attempts[1]).ParseError?
      && outcome.message == FailureMessage(parse(attempts[1]).message, stripped)
  {
    assert attempts[0] == stages[0];
  }

  /** A run that stops after `n` texts: the outcome the last of them settles on. */
  lemma RunStopsAt<V>(parse: string -> ParseResult<V>, stages: seq<string>, stripped: string, n: nat, outcome: Outcome<V>)
    requires |stages| == 3 && 1 <= n <= 3
    requires n >= 2 ==> parse(stages[0]).ParseError?
    requires n == 3 ==> parse(stages[1]).ParseError?
    requires n < 3 ==> parse(stages[n - 1]).Parsed?
    requires parse(stages[n - 1]).Parsed? ==> outcome == Value(parse(stages[n - 1]).value)
    requires parse(stages[n - 1]).ParseError? ==> n == 3 && outcome == ErrorRecord(FailureMessage(parse(stages[1]).message, stripped))
    ensures StagedRun(parse, stages, stripped, stages[..n], outcome)
  {
    assert |stages[..n]| == n;
    assert forall k :: 0 <= k < n ==> stages[..n][k] == stages[k];
  }

  /** The trim, slice and parse steps, and the repair when the parse raises. */
  method SalvageReply<V>(reply: string, parse: string -> ParseResult<V>) returns (outcome: Outcome<V>, attempts: seq<string>)
    ensures SalvageRun(reply, parse, attempts, outcome)
  {
    var stripped := Strip(reply);
    var candidate := BraceSpan(stripped);
    var first := parse(candidate);
    if first.Parsed? {
      outcome, attempts := Value(first.value), [candidate];
      RunStopsAt(parse, Stages(candidate), stripped, 1, outcome);
      assert attempts == Stages(candidate)[..1];
    } else {
      outcome, attempts := Reattempt(candidate, stripped, parse);
    }
  }

  /**
   * The handler of the first parse error: the repaired candidate is parsed,
   * then the extracted object lines, and the error record quotes the second
   * parse's error.
   */
  method Reattempt<V>(candidate: string, stripped: string, parse: string -> ParseResult<V>)
    returns (outcome: Outcome<V>, attempts: seq<string>)
    requires parse(candidate).ParseError?
    ensures StagedRun(parse, Stages(candidate), stripped, attempts, outcome)
  {
    ghost var stages := Stages(candidate);
    var fixed := Repair(candidate);
    assert stages[0] == candidate && stages[1] == fixed;
    var second := parse(fixed);
    if second.Parsed? {
      outcome, attempts := Value(second.value), [candidate, fixed];
      assert parse(stages[0]).ParseError? && parse(stages[1]).Parsed?;
      assert outcome == Value(parse(stages[1]).value);
      RunStopsAt(parse, stages, stripped, 2, outcome);
      assert attempts == stages[..2];
      return;
    }
    var kept := ExtractObjectLines(SplitLines(fixed));
    var lastly := JoinLines(kept);
    assert stages[2] == lastly;
    attempts := [candidate, fixed, lastly];
    var third := parse(lastly);
    if third.Parsed? {
      outcome := Value(third.value);
      assert outcome == Value(parse(stages[2]).value);
    } else {
      outcome := ErrorRecord(FailureMessage(second.message, stripped));
      assert outcome == ErrorRecord(FailureMessage(parse(stages[1]).message, stripped));
    }
    RunStopsAt(parse, stages, stripped, 3, outcome);
    assert attempts == stages[..3];
  }

  /** The rewrites, then as many closing braces as there are unmatched openers. */
  method Repair(candidate: string) returns (fixed: string)
    ensures fixed == Repaired(candidate)
  {
    fixed := Substitute(candidate);
    var open := Count(fixed, '{');
    var close := Count(fixed, '}');
    if open > close {
      fixed := fixed + Repeat('}', open - close);
    }
  }

  /**
   * `categorize_keywords_with_gpt52`: `sent` is the user message handed to
   * the model, absent when the guards stop the call; `attempts` are the
   * texts handed to the parser.
   */
  method Categorize<V>(blog: string, csv: string, developerPrompt: string,
                       model: (string, string) -> CallReply, parse: string -> ParseResult<V>)
    returns (outcome: Outcome<V>, sent: Option<string>, attempts: seq<string>)
    ensures sent.None? <==> IsBlank(blog) || IsBlank(csv)
    ensures sent.None? ==> outcome == ErrorRecord(MissingInputs) && attempts == []
    ensures sent.Some? ==> sent.value == UserMessage(blog, csv)
    ensures sent.Some? && model(developerPrompt, sent.value).CallFailed? ==>
      outcome == ErrorRecord(CallErrorPrefix + model(developerPrompt, sent.value).message) && attempts == []
    ensures sent.Some? && model(developerPrompt, sent.value).Reply? ==>
      SalvageRun(model(developerPrompt, sent.value).text, parse, attempts, outcome)
  {
    if IsBlank(blog) {
      return ErrorRecord(MissingInputs), None, [];
    }
    if IsBlank(csv) {
      return ErrorRecord(MissingInputs), None, [];
    }
    var message := UserMessage(blog, csv);
    sent := Some(message);
    var reply := model(developerPrompt, message);
    match reply
    case CallFailed(error) =>
      outcome, attempts := ErrorRecord(CallErrorPrefix + error), [];
    case Reply(text) =>
      outcome, attempts := SalvageReply(text, parse);
  }
}
