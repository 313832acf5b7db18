/** The policy journal shown on the value view. Canned scenario lines carry a
    bracketed tag (`[INFO]`, `[GUARDRAIL]`, `[BLOCK]`, `[APPROVAL]`, ...) that
    decides their CSS class and is stripped from the displayed text; lines
    written at run time through `journal(tag, text)` get the lower-cased tag
    as their class. */
module Journal {
  import opened Text
  import Governance

  /** CSS class of a journal line. Canned `[GUARDRAIL]` lines get `guard`;
      run-time guardrail lines get `guardrail` (the lower-cased tag), so the
      two are distinct classes. */
  datatype Tag = Info | Guard | Guardrail | Block

  datatype Line = Line(tag: Tag, text: string)

  /** Length of the run of `\w` characters at the start of `s`. */
  function WordRun(s: string): (r: nat)
    ensures r <= |s|
    ensures forall i :: 0 <= i < r ==> IsWordChar(s[i])
    ensures r == |s| || !IsWordChar(s[r])
  {
    if |s| > 0 && IsWordChar(s[0]) then 1 + WordRun(s[1..]) else 0
  }

  /** `s` without its leading `\s*`. */
  function DropSpaces(s: string): (r: string)
    ensures |r| <= |s| && r == s[|s| - |r|..]
    ensures forall i :: 0 <= i < |s| - |r| ==> IsSpace(s[i])
    ensures r == "" || !IsSpace(r[0])
  {
    if |s| > 0 && IsSpace(s[0]) then DropSpaces(s[1..]) else s
  }

  /** The replacement of the regular expression `^\[\w+\]\s*` by nothing:
      removes a leading bracketed word and the white space after it; any
      other line is left as it is. */
  function StripTag(line: string): (r: string)
    ensures |r| <= |line| && r == line[|line| - |r|..]
    ensures !StartsWith(line, "[") ==> r == line
    ensures (forall n :: !TagEndsAt(line, n)) ==> r == line
    ensures forall n :: TagEndsAt(line, n) ==> r == DropSpaces(line[n + 2..])
    ensures r == line || exists n :: TagEndsAt(line, n) && r == DropSpaces(line[n + 2..])
  {
    if |line| > 0 && line[0] == '[' then
      var n := WordRun(line[1..]);
      if n >= 1 && n + 1 < |line| && line[n + 1] == ']' then
        assert forall i :: 0 <= i < n ==> line[1..n + 1][i] == line[1..][i];
        assert TagEndsAt(line, n);
        assert forall m :: TagEndsAt(line, m) ==> m == n by {
          forall m | TagEndsAt(line, m) ensures m == n {
            TagWordIsRun(line, m);
          }
        }
        DropSpaces(line[n + 2..])
      else
        assert forall m :: !TagEndsAt(line, m) by {
          forall m | TagEndsAt(line, m) ensures false {
            TagWordIsRun(line, m);
          }
        }
        line
    else line
  }

  /** The line opens with `[`, a word of `n` characters and `]`. */
  predicate TagEndsAt(line: string, n: nat) {
    1 <= n && n + 1 < |line| && line[0] == '[' && IsWord(line[1..n + 1]) && line[n + 1] == ']'
  }

  /** A bracketed word at the start of a line is the whole word run after
      the bracket. */
  lemma TagWordIsRun(line: string, n: nat)
    requires TagEndsAt(line, n)
    ensures WordRun(line[1..]) == n
  {
    assert line[1..] == line[1..n + 1] + line[n + 1..];
    WordRunOfWord(line[1..n + 1], line[n + 1..]);
  }

  /** Class of a canned line by its prefix: `[BLOCK]`, `[GUARDRAIL]`, or
      information for everything else. */
  function Classify(line: string): (r: Tag)
    ensures r != Guardrail
    ensures r == Block <==> StartsWith(line, "[BLOCK]")
    ensures r == Guard <==> !StartsWith(line, "[BLOCK]") && StartsWith(line, "[GUARDRAIL]")
  {
    if StartsWith(line, "[BLOCK]") then Block
    else if StartsWith(line, "[GUARDRAIL]") then Guard
    else Info
  }

  /** How one canned scenario line is displayed. */
  function ParseLine(line: string): (r: Line)
    ensures r.tag != Guardrail
    ensures |r.text| <= |line| && r.text == line[|line| - |r.text|..]
  {
    Line(Classify(line), StripTag(line))
  }

  /** How a scenario's canned lines are displayed, in order. */
  function ParseAll(lines: seq<string>): (r: seq<Line>)
    ensures |r| == |lines|
    ensures forall i :: 0 <= i < |lines| ==> r[i] == ParseLine(lines[i])
  {
    seq(|lines|, i requires 0 <= i < |lines| => ParseLine(lines[i]))
  }

  /** A canned line as the scenario catalog writes it. */
  function CannedLine(word: string, text: string): string {
    "[" + word + "] " + text
  }

  /** Canned lines from parallel lists of tag words and texts. */
  function CannedLines(words: seq<string>, texts: seq<string>): (r: seq<string>)
    requires |words| == |texts|
    ensures |r| == |words|
  {
    seq(|words|, i requires 0 <= i < |words| => CannedLine(words[i], texts[i]))
  }

  /** Text that the tag's trailing `\s*` does not eat into. */
  predicate StartsClean(text: string) {
    text == "" || !IsSpace(text[0])
  }

  /** Parsing a list of canned lines recovers every tag word's class and
      every text, in order. */
  lemma ParseAllCanned(words: seq<string>, texts: seq<string>)
    requires |words| == |texts|
    requires forall i :: 0 <= i < |words| ==> IsWord(words[i]) && StartsClean(texts[i])
    ensures ParseAll(CannedLines(words, texts)) == seq(|words|, i requires 0 <= i < |words| => Line(TagOfWord(words[i]), texts[i]))
  {
    forall i | 0 <= i < |words|
      ensures ParseLine(CannedLines(words, texts)[i]) == Line(TagOfWord(words[i]), texts[i])
    {
      ParseCanned(words[i], texts[i]);
    }
  }

  /** Every canned line gets the class its tag word stands for, whatever its
      text. */
  lemma ClassifyAllCanned(words: seq<string>, texts: seq<string>)
    requires |words| == |texts|
    requires forall i :: 0 <= i < |words| ==> IsWord(words[i])
    ensures forall i :: 0 <= i < |words| ==> ParseAll(CannedLines(words, texts))[i].tag == TagOfWord(words[i])
  {
    forall i | 0 <= i < |words|
      ensures ParseAll(CannedLines(words, texts))[i].tag == TagOfWord(words[i])
    {
      ClassifyOfCanned(words[i], texts[i]);
    }
  }

  predicate IsWord(w: string) {
    |w| > 0 && forall i :: 0 <= i < |w| ==> IsWordChar(w[i])
  }

  /** The class a tag word stands for. */
  function TagOfWord(word: string): Tag {
    if word == "BLOCK" then Block else if word == "GUARDRAIL" then Guard else Info
  }

  /** Parsing a canned line recovers the class its tag word stands for and
      the text after the tag, as long as that text does not itself begin
      with white space. */
  lemma ParseCanned(word: string, text: string)
    requires IsWord(word)
    requires StartsClean(text)
    ensures ParseLine(CannedLine(word, text)) == Line(TagOfWord(word), text)
  {
    StripCanned(word, text);
    ClassifyOfCanned(word, text);
  }

  lemma ClassifyOfCanned(word: string, text: string)
    requires IsWord(word)
    ensures Classify(CannedLine(word, text)) == TagOfWord(word)
  {
    TagKeys();
    ClassifyCanned(word, text, "BLOCK");
    ClassifyCanned(word, text, "GUARDRAIL");
  }

  lemma TagKeys()
    ensures IsWord("BLOCK") && IsWord("GUARDRAIL")
    ensures "[" + "BLOCK" + "]" == "[BLOCK]"
    ensures "[" + "GUARDRAIL" + "]" == "[GUARDRAIL]"
  {
  }

  /** A bracketed word at the start of a line is removed together with all
      the white space after it, whatever follows. */
  lemma StripTagged(word: string, rest: string)
    requires IsWord(word)
    ensures StripTag("[" + word + "]" + rest) == DropSpaces(rest)
  {
    var line := "[" + word + "]" + rest;
    assert line[1..] == word + ("]" + rest);
    WordRunOfWord(word, "]" + rest);
    assert line[|word| + 1] == ']';
    assert line[|word| + 2..] == rest;
  }

  lemma StripCanned(word: string, text: string)
    requires IsWord(word)
    requires StartsClean(text)
    ensures StripTag(CannedLine(word, text)) == text
  {
    assert CannedLine(word, text) == "[" + word + "]" + (" " + text);
    StripTagged(word, " " + text);
    assert DropSpaces(" " + text) == DropSpaces(text) == text;
  }

  lemma {:induction false} WordRunOfWord(word: string, rest: string)
    requires forall i :: 0 <= i < |word| ==> IsWordChar(word[i])
    requires rest == "" || !IsWordChar(rest[0])
    ensures WordRun(word + rest) == |word|
    decreases |word|
  {
    if |word| == 0 {
      assert word + rest == rest;
    } else {
      assert (word + rest)[1..] == word[1..] + rest;
      WordRunOfWord(word[1..], rest);
    }
  }

  /** A canned line starts with `[key]` exactly when its tag word is `key`:
      a tag word cannot contain `]`, so no longer or shorter word matches. */
  lemma ClassifyCanned(word: string, text: string, key: string)
    requires IsWord(word) && IsWord(key)
    ensures StartsWith(CannedLine(word, text), "[" + key + "]") <==> word == key
  {
    var line := CannedLine(word, text);
    var pre := "[" + key + "]";
    if StartsWith(line, pre) {
      assert line[1..] == word + ("] " + text);
      WordRunOfWord(word, "] " + text);
      var rest := line[|pre|..];
      assert line[1..] == key + ("]" + rest) by {
        assert line == line[..|pre|] + rest;
      }
      WordRunOfWord(key, "]" + rest);
      assert word == line[1..][..|word|] == key;
    }
    if word == key {
      assert line[..|pre|] == pre;
    }
  }

  /** A line with no leading bracket is displayed whole, as information. */
  lemma UntaggedLineShownWhole(line: string)
    requires !StartsWith(line, "[")
    ensures ParseLine(line) == Line(Info, line)
  {
  }

  const GxpGuardText: string := "GxP=true forces approval for Commit/Release"
  const BlockedText: string := "Commit blocked \U{2014} approval required"
  const AutonomousText: string := "Commit executed autonomously"
  const ApprovalText: string := "Approval granted \U{2014} re\U{2011}running commit"

  function ThresholdGuardText(threshold: nat): string {
    "Threshold " + Fixed2(threshold) + " > 0.70 \U{2014} autonomous Commit blocked without approval"
  }

  /** The lines a run writes while evaluating the policy: one guardrail line
      per rule that fires, then either the block line or the autonomous-commit
      line. */
  function RuntimeGuardLines(gxp: bool, threshold: nat): (r: seq<Line>)
    ensures 1 <= |r| <= 3
    ensures |r| - 1 == (if gxp then 1 else 0) + (if threshold > 70 then 1 else 0)
    ensures forall i :: 0 <= i < |r| - 1 ==> r[i].tag == Guardrail
    ensures r[|r| - 1].tag == Block <==> gxp || threshold > 70
    ensures r[|r| - 1].tag != Block ==> r[|r| - 1] == Line(Info, AutonomousText)
    ensures gxp ==> r[0] == Line(Guardrail, GxpGuardText)
    ensures threshold > 70 ==> r[|r| - 2] == Line(Guardrail, ThresholdGuardText(threshold))
    ensures gxp || threshold > 70 ==> r[|r| - 1] == Line(Block, BlockedText)
  {
    (if gxp then [Line(Guardrail, GxpGuardText)] else [])
    + (if threshold > Governance.BlockAbove then [Line(Guardrail, ThresholdGuardText(threshold))] else [])
    + (if Governance.Blocked(gxp, threshold) then [Line(Block, BlockedText)] else [Line(Info, AutonomousText)])
  }

  /** The line the approve action adds. */
  const ApprovalLine: Line := Line(Info, ApprovalText)
}
