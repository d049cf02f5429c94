/** The two console prompts of console_utils.py. The console is the
    sequence of lines the user will type; each prompt reads lines from its
    front until it accepts one, and running out of lines is the EOFError
    that input() raises. */
module ConsoleUtils {
  import opened Wrappers
  import opened Text

  predicate IsYes(line: string) {
    line in ["y", "Y", "yes", "Yes", "YES"]
  }

  predicate IsNo(line: string) {
    line in ["n", "N", "no", "No", "NO"]
  }

  /** A line that ask_yes_no accepts; every other line makes it ask again. */
  predicate Recognised(line: string) {
    IsYes(line) || IsNo(line)
  }

  /** The position of the first line ask_yes_no accepts, or |lines|. */
  function FirstRecognised(lines: seq<string>): (k: nat)
    ensures k <= |lines|
    ensures forall j :: 0 <= j < k ==> !Recognised(lines[j])
    ensures k < |lines| ==> Recognised(lines[k])
  {
    if lines == [] || Recognised(lines[0]) then 0 else 1 + FirstRecognised(lines[1..])
  }

  /** How ask_yes_no ends: with the answer and the number of lines read,
      or unanswered when the lines run out first. */
  datatype Answer = Unanswered | Answered(yes: bool, used: nat)

  /** What ask_yes_no returns on these lines. */
  function YesNoReply(lines: seq<string>): (r: Answer)
    ensures r.Answered? ==> 1 <= r.used <= |lines|
  {
    var k := FirstRecognised(lines);
    if k < |lines| then Answered(IsYes(lines[k]), k + 1) else Unanswered
  }

  /** ask_yes_no(prompt). */
  method AskYesNo(lines: seq<string>) returns (answer: Answer)
    ensures answer == YesNoReply(lines)
  {
    var i := 0;
    while i < |lines|
      invariant 0 <= i <= |lines|
      invariant forall j :: 0 <= j < i ==> !Recognised(lines[j])
    {
      if IsYes(lines[i]) {
        return Answered(true, i + 1);
      } else if IsNo(lines[i]) {
        return Answered(false, i + 1);
      }
      i := i + 1;
    }
    return Unanswered;
  }

  /** What the reply means: every line before the accepted one is neither
      a yes nor a no, and the accepted line decides; the lines run out only
      when none of them is accepted. */
  lemma YesNoReplyMeaning(lines: seq<string>)
    ensures match YesNoReply(lines)
      case Answered(yes, used) =>
        && Recognised(lines[used - 1])
        && yes == IsYes(lines[used - 1])
        && forall j :: 0 <= j < used - 1 ==> !Recognised(lines[j])
      case Unanswered => forall j :: 0 <= j < |lines| ==> !Recognised(lines[j])
  {
  }

  /** The answer is fixed by the first accepted line: lines after it never
      matter. */
  lemma {:induction false} YesNoReplyPrefix(lines: seq<string>, more: seq<string>)
    requires FirstRecognised(lines) < |lines|
    ensures YesNoReply(lines + more) == YesNoReply(lines)
    decreases |lines|
  {
    if !Recognised(lines[0]) {
      assert (lines + more)[1..] == lines[1..] + more;
      YesNoReplyPrefix(lines[1..], more);
    }
  }

  /** A line that is empty once stripped: whitespace only. */
  predicate Blank(line: string) {
    AllSpace(line)
  }

  lemma BlankStrip(line: string)
    ensures Blank(line) <==> Strip(line) == ""
  {
    StripFacts(line);
  }

  /** The position of the first line that is not blank once stripped, or
      |lines|. */
  function FirstNonBlank(lines: seq<string>): (k: nat)
    ensures k <= |lines|
    ensures forall j :: 0 <= j < k ==> Blank(lines[j])
    ensures k < |lines| ==> !Blank(lines[k])
  {
    if lines == [] || !Blank(lines[0]) then 0 else 1 + FirstNonBlank(lines[1..])
  }

  /** How ask_input ends: with the text and the number of lines read, or
      unanswered when the lines run out first. */
  datatype Reply = NoReply | Replied(text: string, used: nat)

  /** What ask_input(prompt, default) returns on these lines. */
  function InputReply(lines: seq<string>, default: Option<string>): (r: Reply)
    ensures r.Replied? ==> 1 <= r.used <= |lines|
  {
    if default.Some? then
      if lines == [] then NoReply
      else if !Blank(lines[0]) then Replied(Strip(lines[0]), 1)
      else Replied(default.value, 1)
    else
      var k := FirstNonBlank(lines);
      if k < |lines| then Replied(Strip(lines[k]), k + 1) else NoReply
  }

  /** ask_input(prompt, default). */
  method AskInput(lines: seq<string>, default: Option<string>) returns (reply: Reply)
    ensures reply == InputReply(lines, default)
  {
    var i := 0;
    while i < |lines|
      invariant 0 <= i <= |lines|
      invariant forall j :: 0 <= j < i ==> Blank(lines[j])
      invariant default.Some? ==> i == 0
    {
      var ans := Strip(lines[i]);
      BlankStrip(lines[i]);
      if ans != "" {
        FirstNonBlankAt(lines, i);
        return Replied(ans, i + 1);
      } else if default.Some? {
        return Replied(default.value, i + 1);
      }
      i := i + 1;
    }
    FirstNonBlankAt(lines, |lines|);
    return NoReply;
  }

  /** The first non-blank line is at k when every line before k is blank
      and the line at k, if any, is not. */
  lemma FirstNonBlankAt(lines: seq<string>, k: nat)
    requires k <= |lines|
    requires forall j :: 0 <= j < k ==> Blank(lines[j])
    requires k < |lines| ==> !Blank(lines[k])
    ensures FirstNonBlank(lines) == k
  {
  }

  /** What the reply means: every line before the accepted one is blank;
      the accepted line is returned stripped, or, when blank, stands for the
      default; the lines run out only when there is no default and all of
      them are blank, or when there are none. */
  lemma InputReplyMeaning(lines: seq<string>, default: Option<string>)
    ensures match InputReply(lines, default)
      case Replied(text, used) =>
        && (forall j :: 0 <= j < used - 1 ==> Blank(lines[j]))
        && (!Blank(lines[used - 1]) ==> text == Strip(lines[used - 1]))
        && (Blank(lines[used - 1]) ==> default.Some? && text == default.value)
      case NoReply =>
        && (default.Some? ==> lines == [])
        && forall j :: 0 <= j < |lines| ==> Blank(lines[j])
  {
  }

  /** ask_input answers the empty string only when that is its default. */
  lemma InputReplyEmpty(lines: seq<string>, default: Option<string>)
    requires InputReply(lines, default).Replied? && InputReply(lines, default).text == ""
    ensures default == Some("")
  {
    if lines != [] {
      StripFacts(lines[0]);
    }
    var k := FirstNonBlank(lines);
    if k < |lines| {
      StripFacts(lines[k]);
    }
  }
}
