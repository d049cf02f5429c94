/** The text rules of renamer.py that shape names: the reserved-character
    sanitizer (__compile_new_name), the 【…】 remover (__cleanup_work_name)
    and the two title sniffers (__sniff_name, __sniff_name_from_folder). */
module Naming {
  import opened Wrappers
  import opened Text

  // ---------------------------------------------------------------------
  // Reserved characters

  /** The characters Windows forbids in file names, and the fullwidth form
      that takes the place of each, position by position. */
  const ReservedChars: string := "\\/:*?\"<>|"
  const FullwidthChars: string := "＼／：＊？＂＜＞｜"

  /** One of the characters of ReservedChars, the class of
      WINDOWS_RESERVED_CHARACTER_PATTERN. */
  predicate IsReserved(c: char) {
    c == '\\' || c == '/' || c == ':' || c == '*' || c == '?' || c == '"' || c == '<' || c == '>' || c == '|'
  }

  /** IsReserved holds exactly for the characters of the table. */
  lemma ReservedTable(c: char)
    ensures IsReserved(c) <==> c in ReservedChars
  {
    assert ReservedChars == ['\\', '/', ':', '*', '?', '"', '<', '>', '|'];
  }

  predicate NoReserved(s: string) {
    forall i :: 0 <= i < |s| ==> !IsReserved(s[i])
  }

  /** What str.translate with the table pairing ReservedChars and
      FullwidthChars does to one character. */
  function ToFullwidth(c: char): (r: char)
    ensures !IsReserved(r)
    ensures forall k :: 0 <= k < |ReservedChars| && c == ReservedChars[k] ==> r == FullwidthChars[k]
    ensures !IsReserved(c) ==> r == c
  {
    assert ReservedChars == ['\\', '/', ':', '*', '?', '"', '<', '>', '|'];
    assert FullwidthChars == ['＼', '／', '：', '＊', '？', '＂', '＜', '＞', '｜'];
    match c
    case '\\' => '＼'
    case '/' => '／'
    case ':' => '：'
    case '*' => '＊'
    case '?' => '？'
    case '"' => '＂'
    case '<' => '＜'
    case '>' => '＞'
    case '|' => '｜'
    case _ => c
  }

  /** The fullwidth branch: every reserved character replaced, one for one. */
  function Translate(s: string): (r: string)
    ensures |r| == |s| && NoReserved(r)
    ensures forall i :: 0 <= i < |s| ==> r[i] == ToFullwidth(s[i])
  {
    seq(|s|, i requires 0 <= i < |s| => ToFullwidth(s[i]))
  }

  /** The deleting branch: WINDOWS_RESERVED_CHARACTER_PATTERN.sub('', s). */
  function DeleteReserved(s: string): (r: string)
    ensures NoReserved(r)
    ensures NoReserved(s) ==> r == s
  {
    if s == [] then []
    else
      assert s == [s[0]] + s[1..];
      (if IsReserved(s[0]) then [] else [s[0]]) + DeleteReserved(s[1..])
  }

  /** Deletion keeps every character that is not reserved, as often as it
      occurs. */
  lemma {:induction false} DeleteReservedKeeps(s: string)
    ensures forall c :: !IsReserved(c) ==> multiset(DeleteReserved(s))[c] == multiset(s)[c]
    decreases |s|
  {
    if s != [] {
      DeleteReservedKeeps(s[1..]);
      var head: string := if IsReserved(s[0]) then [] else [s[0]];
      assert s == [s[0]] + s[1..];
      assert multiset(DeleteReserved(s)) == multiset(head) + multiset(DeleteReserved(s[1..]));
      assert multiset(s) == multiset([s[0]]) + multiset(s[1..]);
    }
  }

  /** One step of the deletion: the first character goes or stays. */
  lemma DeleteReservedCons(c: char, t: string)
    ensures DeleteReserved([c] + t) == (if IsReserved(c) then [] else [c]) + DeleteReserved(t)
  {
    var s := [c] + t;
    assert s[0] == c && s[1..] == t;
  }

  /** Deleting works piece by piece, so the kept characters stay in their
      order. */
  lemma {:induction false} DeleteReservedAppend(a: string, b: string)
    ensures DeleteReserved(a + b) == DeleteReserved(a) + DeleteReserved(b)
    decreases |a|
  {
    if a == [] {
      assert a + b == b;
    } else {
      var c, t := a[0], a[1..];
      var head: string := if IsReserved(c) then [] else [c];
      assert a == [c] + t;
      assert a + b == [c] + (t + b);
      DeleteReservedAppend(t, b);
      DeleteReservedCons(c, t + b);
      DeleteReservedCons(c, t);
      AppendAssociative(head, DeleteReserved(t), DeleteReserved(b));
    }
  }

  /** Concatenation is associative; stated once so that the proofs above
      need not rediscover it element by element. */
  lemma AppendAssociative(x: string, y: string, z: string)
    ensures x + (y + z) == (x + y) + z
  {
  }

  /** __compile_new_name: reserved characters deleted, or made fullwidth when
      the flag is set, then surrounding whitespace stripped. */
  function CompileNewName(name: string, toFullwidth: bool): (r: string)
    ensures NoReserved(r) && NoOuterSpace(r)
  {
    var t := if toFullwidth then Translate(name) else DeleteReserved(name);
    var r := Strip(t);
    StripFacts(t);
    assert forall i :: 0 <= i < |r| ==> r[i] in t;
    r
  }

  /** Sanitizing a sanitized name changes nothing, in either mode. */
  lemma CompileNewNameIdempotent(name: string, toFullwidth: bool)
    ensures CompileNewName(CompileNewName(name, toFullwidth), toFullwidth) == CompileNewName(name, toFullwidth)
  {
    var r := CompileNewName(name, toFullwidth);
    if toFullwidth {
      assert Translate(r) == r;
    }
  }

  // ---------------------------------------------------------------------
  // 【…】 spans

  /** Where the lazy `.*?` of `【.*?】` stops in t, the text after a '【':
      at the first '】', provided no line feed comes before it. */
  function CloseIndex(t: string): (r: Option<nat>)
    ensures r.Some? ==> r.value < |t| && t[r.value] == '】'
    ensures r.Some? ==> forall j :: 0 <= j < r.value ==> t[j] != '】' && t[j] != '\n'
    ensures r.None? ==> forall k :: 0 <= k < |t| && t[k] == '】' ==> '\n' in t[..k]
  {
    if t == [] then None
    else if t[0] == '】' then Some(0)
    else if t[0] == '\n' then
      assert forall k :: 0 < k <= |t| ==> t[..k][0] == '\n';
      None
    else match CloseIndex(t[1..])
      case None =>
        assert forall k :: 0 < k <= |t| ==> t[..k] == [t[0]] + t[1..][..k - 1];
        None
      case Some(k) => Some(k + 1)
  }

  /** `【.*?】` matches at the start of s. */
  predicate SpanAtStart(s: string) {
    s != [] && s[0] == '【' && CloseIndex(s[1..]).Some?
  }

  /** re.sub(r'【.*?】', '', s): scanning left to right, every span that
      matches is cut out and the scan resumes after it. */
  function RemoveBracketSpans(s: string): (r: string)
    ensures |r| <= |s|
    ensures NoSpan(s) ==> r == s
    decreases |s|
  {
    if s == [] then []
    else if SpanAtStart(s) then RemoveBracketSpans(s[CloseIndex(s[1..]).value + 2..])
    else
      assert s == [s[0]] + s[1..];
      [s[0]] + RemoveBracketSpans(s[1..])
  }

  /** A '【' whose span is broken by a line feed is kept, and the scan
      moves on by one character, so a later span is still cut. */
  lemma UnclosedSpanKept()
    ensures RemoveBracketSpans("【a\n【b】") == "【a\n"
  {
    var s := "【a\n【b】";
    assert CloseIndex(s[1..]).None? by {
      assert s[1..][1..] == "\n【b】";
    }
    assert s[1..][1..][1..] == "【b】";
    assert CloseIndex("【b】"[1..]) == Some(1) by {
      assert "【b】"[1..][1..] == "】";
    }
    assert "【b】"[3..] == [];
    assert RemoveBracketSpans("【b】") == [];
  }

  /** No position of s starts a match of `【.*?】`. */
  predicate NoSpan(s: string)
    decreases |s|
  {
    s == [] || (!SpanAtStart(s) && NoSpan(s[1..]))
  }

  /** Text before the first '【' is kept as it is. */
  lemma {:induction false} RemovePlainPrefix(x: string, s: string)
    requires forall i :: 0 <= i < |x| ==> x[i] != '【'
    ensures RemoveBracketSpans(x + s) == x + RemoveBracketSpans(s)
    decreases |x|
  {
    if x == [] {
      assert x + s == s;
    } else {
      var xs := x + s;
      assert xs[1..] == x[1..] + s;
      RemovePlainPrefix(x[1..], s);
      calc {
        RemoveBracketSpans(xs);
        [x[0]] + RemoveBracketSpans(x[1..] + s);
        [x[0]] + (x[1..] + RemoveBracketSpans(s));
        { assert x == [x[0]] + x[1..]; }
        x + RemoveBracketSpans(s);
      }
    }
  }

  /** The lazy match closes at the first '】' after the '【'. */
  lemma CloseIndexAt(body: string, s: string)
    requires forall i :: 0 <= i < |body| ==> body[i] != '】' && body[i] != '\n'
    ensures CloseIndex(body + "】" + s) == Some(|body|)
  {
    var t := body + "】" + s;
    assert t[..|body|] == body;
    assert t[|body|] == '】';
  }

  /** A complete span at the front is cut out, and only that span. */
  lemma RemoveLeadingSpan(body: string, s: string)
    requires forall i :: 0 <= i < |body| ==> body[i] != '】' && body[i] != '\n'
    ensures RemoveBracketSpans("【" + body + "】" + s) == RemoveBracketSpans(s)
  {
    var u := "【" + body + "】" + s;
    assert u[1..] == body + "】" + s;
    CloseIndexAt(body, s);
    assert u[|body| + 2..] == s;
  }

  /** __cleanup_work_name. */
  function CleanupWorkName(workName: string, excludeBrackets: bool): (r: string)
    ensures !excludeBrackets ==> r == workName
    ensures excludeBrackets ==> NoSpan(r) && NoOuterSpace(r)
    ensures excludeBrackets && (forall i :: 0 <= i < |workName| ==> workName[i] != '【') ==> r == Strip(workName)
  {
    if excludeBrackets then
      var r := Strip(RemoveBracketSpans(workName));
      assert (forall i :: 0 <= i < |workName| ==> workName[i] != '【') ==> RemoveBracketSpans(workName) == workName by {
        if forall i :: 0 <= i < |workName| ==> workName[i] != '【' {
          RemovePlainPrefix(workName, []);
          assert workName + [] == workName;
        }
      }
      RemoveLeavesNoSpan(workName);
      StripFacts(RemoveBracketSpans(workName));
      StripKeepsNoSpan(RemoveBracketSpans(workName));
      r
    else workName
  }

  lemma {:induction false} RemoveKeepsNoClose(t: string)
    requires CloseIndex(t).None?
    ensures CloseIndex(RemoveBracketSpans(t)).None?
    decreases |t|
  {
    if t != [] && !SpanAtStart(t) && t[0] != '\n' {
      RemoveKeepsNoClose(t[1..]);
      assert ([t[0]] + RemoveBracketSpans(t[1..]))[1..] == RemoveBracketSpans(t[1..]);
    }
  }

  /** Every span is removed: no match of `【.*?】` is left in the result. */
  lemma {:induction false} RemoveLeavesNoSpan(s: string)
    ensures NoSpan(RemoveBracketSpans(s))
    decreases |s|
  {
    if s == [] {
    } else if SpanAtStart(s) {
      RemoveLeavesNoSpan(s[CloseIndex(s[1..]).value + 2..]);
    } else {
      var rest := RemoveBracketSpans(s[1..]);
      RemoveLeavesNoSpan(s[1..]);
      var r := [s[0]] + rest;
      assert r[1..] == rest;
      if s[0] == '【' {
        RemoveKeepsNoClose(s[1..]);
      }
    }
  }

  lemma {:induction false} CloseIndexPrefix(t: string, j: nat)
    requires j <= |t| && CloseIndex(t[..j]).Some?
    ensures CloseIndex(t) == CloseIndex(t[..j])
    decreases j
  {
    if t[0] != '】' && t[0] != '\n' {
      assert t[..j][1..] == t[1..][..j - 1];
      CloseIndexPrefix(t[1..], j - 1);
    }
  }

  lemma {:induction false} NoSpanPrefix(s: string, j: nat)
    requires NoSpan(s) && j <= |s|
    ensures NoSpan(s[..j])
    decreases |s|
  {
    if j > 0 {
      var p := s[..j];
      assert p[1..] == s[1..][..j - 1];
      NoSpanPrefix(s[1..], j - 1);
      if SpanAtStart(p) {
        assert p[1..] == s[1..][..j - 1];
        CloseIndexPrefix(s[1..], j - 1);
        assert false;
      }
    }
  }

  lemma {:induction false} NoSpanSuffix(s: string, i: nat)
    requires NoSpan(s) && i <= |s|
    ensures NoSpan(s[i..])
    decreases i
  {
    if i > 0 {
      NoSpanSuffix(s[1..], i - 1);
      assert s[1..][i - 1..] == s[i..];
    }
  }

  lemma StripKeepsNoSpan(s: string)
    requires NoSpan(s)
    ensures NoSpan(Strip(s))
  {
    StripIsSlice(s);
    var a := LeadingSpaces(s);
    NoSpanSuffix(s, a);
    NoSpanPrefix(s[a..], |Strip(s)|);
    assert s[a..][..|Strip(s)|] == s[a..a + |Strip(s)|];
  }

  /** With the flag set, cleaning a cleaned name changes nothing. */
  lemma CleanupIdempotent(workName: string, excludeBrackets: bool)
    ensures CleanupWorkName(CleanupWorkName(workName, excludeBrackets), excludeBrackets)
         == CleanupWorkName(workName, excludeBrackets)
  {
    if excludeBrackets {
      assert RemoveBracketSpans(CleanupWorkName(workName, true)) == CleanupWorkName(workName, true);
    }
  }

  /** With the flag set, a span between two runs of plain text goes and the
      text on both sides of it is kept. */
  lemma CleanupDropsSpan(x: string, body: string, y: string)
    requires forall i :: 0 <= i < |x| ==> x[i] != '【'
    requires forall i :: 0 <= i < |body| ==> body[i] != '】' && body[i] != '\n'
    requires forall i :: 0 <= i < |y| ==> y[i] != '【'
    ensures CleanupWorkName(x + "【" + body + "】" + y, true) == Strip(x + y)
  {
    var w := x + "【" + body + "】" + y;
    assert w == x + ("【" + body + "】" + y);
    RemovePlainPrefix(x, "【" + body + "】" + y);
    RemoveLeadingSpan(body, y);
    RemovePlainPrefix(y, []);
    assert y + [] == y;
    assert RemoveBracketSpans(w) == x + y;
  }

  /** re.sub removes every span, not only the first. */
  lemma RemovesEverySpan()
    ensures RemoveBracketSpans("【A】x【B】") == "x"
  {
    assert CloseIndex("A】x【B】") == Some(1);
    assert "【A】x【B】"[3..] == "x【B】";
    assert CloseIndex("B】") == Some(1);
    assert "x【B】"[1..] == "【B】";
    assert "【B】"[3..] == "";
  }

  // ---------------------------------------------------------------------
  // Title sniffers

  /** The class [_\.、\s] of the separators the sniffers skip. */
  predicate IsSeparator(c: char) {
    c == '_' || c == '.' || c == '、' || IsSpace(c)
  }

  predicate NotLineFeed(c: char) {
    c != '\n'
  }

  predicate NoLineFeed(s: string) {
    forall i :: 0 <= i < |s| ==> s[i] != '\n'
  }

  /** How many characters from position i on satisfy p. */
  function RunLength(s: string, i: nat, p: char -> bool): (n: nat)
    requires i <= |s|
    ensures i + n <= |s|
    ensures forall j :: i <= j < i + n ==> p(s[j])
    ensures i + n < |s| ==> !p(s[i + n])
    decreases |s| - i
  {
    if i < |s| && p(s[i]) then 1 + RunLength(s, i + 1, p) else 0
  }

  /** How many characters at the end of s satisfy p. */
  function TrailingRun(s: string, p: char -> bool): (n: nat)
    ensures n <= |s|
    ensures forall j :: |s| - n <= j < |s| ==> p(s[j])
    ensures n < |s| ==> !p(s[|s| - n - 1])
  {
    if s != [] && p(s[|s| - 1]) then 1 + TrailingRun(s[..|s| - 1], p) else 0
  }

  /** Where the greedy `^\d*[_\.、\s]*` that both sniffers start with stops. */
  function PrefixEnd(s: string): (n: nat)
    ensures n <= |s|
  {
    var d := RunLength(s, 0, IsDigit);
    d + RunLength(s, d, IsSeparator)
  }

  /** How far `.` reaches from p: up to the first line feed. */
  function LineEnd(s: string, p: nat): (q: nat)
    requires p <= |s|
    ensures p <= q <= |s|
    ensures forall j :: p <= j < q ==> s[j] != '\n'
  {
    p + RunLength(s, p, NotLineFeed)
  }

  /** `\w+$` matches at k: one or more word characters, then the end of s or
      a line feed that ends s. */
  predicate TailMatches(s: string, k: nat) {
    k <= |s| &&
    var m := k + RunLength(s, k, IsWordChar);
    m > k && (m == |s| || (m == |s| - 1 && s[m] == '\n'))
  }

  /** The end of the group when `(.+)` of `^\d*[_\.、\s]*(.+)\.\w+$` starts at
      p: the greedy group gives back characters from e towards p until a
      '.' follows it and `\w+$` follows the '.'. */
  function FileGroupEnd(s: string, p: nat, e: nat): (r: Option<nat>)
    requires p <= e <= |s|
    ensures r.Some? ==> p < r.value <= e && r.value < |s| && s[r.value] == '.' && TailMatches(s, r.value + 1)
    decreases e
  {
    if e <= p then None
    else if e < |s| && s[e] == '.' && TailMatches(s, e + 1) then Some(e)
    else FileGroupEnd(s, p, e - 1)
  }

  /** s ends in a '.', not its first character, followed by `\w+$`. */
  predicate HasExtension(s: string) {
    exists e :: 0 < e < |s| && s[e] == '.' && TailMatches(s, e + 1)
  }

  /** The regular-expression engine backtracks the digit and separator runs
      one character at a time, so the group is tried at p, p - 1, ..., 0;
      the first start that matches gives the title. */
  function SniffFrom(s: string, p: nat): (r: Option<string>)
    requires p <= |s|
    ensures r.Some? ==> r.value != [] && NoLineFeed(r.value) && HasExtension(s)
    decreases p
  {
    match FileGroupEnd(s, p, LineEnd(s, p))
    case Some(e) =>
      Some(s[p..e])
    case None => if p == 0 then None else SniffFrom(s, p - 1)
  }

  /** __sniff_name: re.search(r'^\d*[_\.、\s]*(.+)\.\w+$', name), group 1. */
  function SniffName(name: string): (r: Option<string>)
    ensures r.Some? ==> r.value != [] && NoLineFeed(r.value) && HasExtension(name)
    ensures NoLineFeed(name) ==> (r.Some? <==> ExtensionDot(name).Some? && ExtensionDot(name).value > 0)
    ensures NoLineFeed(name) && r.Some? ==>
      var dot := ExtensionDot(name).value;
      |r.value| <= dot && r.value == name[dot - |r.value|..dot]
  {
    if NoLineFeed(name) then
      SniffFromNoLineFeed(name, PrefixEnd(name));
      SniffFrom(name, PrefixEnd(name))
    else SniffFrom(name, PrefixEnd(name))
  }

  /** The end of the group when `(.+)` of `^\d*[_\.、\s]*(.+)$` starts at p:
      the group runs to the first line feed, and `$` must follow. */
  function FolderGroupEnd(s: string, p: nat): (r: Option<nat>)
    requires p <= |s|
  {
    var q := LineEnd(s, p);
    if p < q && (q == |s| || q == |s| - 1) then Some(q) else None
  }

  function SniffFolderFrom(s: string, p: nat): (r: Option<string>)
    requires p <= |s|
    ensures r.Some? ==> r.value != [] && NoLineFeed(r.value)
    decreases p
  {
    match FolderGroupEnd(s, p)
    case Some(q) =>
      Some(s[p..q])
    case None => if p == 0 then None else SniffFolderFrom(s, p - 1)
  }

  /** __sniff_name_from_folder: re.search(r'^\d*[_\.、\s]*(.+)$', name), group 1. */
  function SniffNameFromFolder(name: string): (r: Option<string>)
    ensures r.Some? ==> r.value != [] && NoLineFeed(r.value)
    ensures NoLineFeed(name) ==> (r.None? <==> name == [])
    ensures NoLineFeed(name) && r.Some? ==> |r.value| <= |name| && r.value == name[|name| - |r.value|..]
  {
    if NoLineFeed(name) then
      SniffFolderFromNoLineFeed(name, PrefixEnd(name));
      SniffFolderFrom(name, PrefixEnd(name))
    else SniffFolderFrom(name, PrefixEnd(name))
  }

  /** Without line feeds: the position of the '.' that starts the
      extension, when s ends in '.' and one or more word characters. */
  function ExtensionDot(s: string): (r: Option<nat>)
    ensures r.Some? ==> r.value < |s|
  {
    var w := TrailingRun(s, IsWordChar);
    if 0 < w < |s| && s[|s| - w - 1] == '.' then Some(|s| - w - 1) else None
  }

  function Min(a: nat, b: nat): nat {
    if a < b then a else b
  }

  /** A run that stops where p first fails has exactly that length. */
  lemma RunLengthIs(s: string, i: nat, p: char -> bool, k: nat)
    requires i + k <= |s|
    requires forall j :: i <= j < i + k ==> p(s[j])
    requires i + k == |s| || !p(s[i + k])
    ensures RunLength(s, i, p) == k
  {
  }

  lemma TrailingRunIs(s: string, p: char -> bool, k: nat)
    requires k <= |s|
    requires forall j :: |s| - k <= j < |s| ==> p(s[j])
    requires k == |s| || !p(s[|s| - k - 1])
    ensures TrailingRun(s, p) == k
  {
  }

  lemma DotStartsTail(s: string, e: nat)
    requires NoLineFeed(s) && e < |s|
    ensures (s[e] == '.' && TailMatches(s, e + 1)) <==> ExtensionDot(s).Some? && ExtensionDot(s).value == e
  {
    var w := TrailingRun(s, IsWordChar);
    if s[e] == '.' && TailMatches(s, e + 1) {
      var m := e + 1 + RunLength(s, e + 1, IsWordChar);
      assert m == |s|;
      TrailingRunIs(s, IsWordChar, |s| - e - 1);
    }
    if ExtensionDot(s).Some? && ExtensionDot(s).value == e {
      RunLengthIs(s, e + 1, IsWordChar, |s| - e - 1);
    }
  }

  lemma {:induction false} FileGroupEndNoLineFeed(s: string, p: nat, e: nat)
    requires NoLineFeed(s) && p <= e <= |s|
    ensures FileGroupEnd(s, p, e).Some? <==> ExtensionDot(s).Some? && p < ExtensionDot(s).value <= e
    ensures FileGroupEnd(s, p, e).Some? ==> FileGroupEnd(s, p, e).value == ExtensionDot(s).value
    decreases e
  {
    if e > p {
      if e < |s| {
        DotStartsTail(s, e);
      }
      FileGroupEndNoLineFeed(s, p, e - 1);
    }
  }

  lemma {:induction false} SniffFromNoLineFeed(s: string, p: nat)
    requires NoLineFeed(s) && p <= |s|
    ensures SniffFrom(s, p) ==
      match ExtensionDot(s)
      case Some(dot) => if dot == 0 then None else Some(s[Min(p, dot - 1)..dot])
      case None => None
    decreases p
  {
    assert LineEnd(s, p) == |s|;
    FileGroupEndNoLineFeed(s, p, |s|);
    if p > 0 {
      SniffFromNoLineFeed(s, p - 1);
    }
  }

  /** For a name without line feeds: a title exists exactly when the name
      ends in '.' and word characters with something before the '.'; it
      runs from the end of the skipped number-and-separator prefix (or from
      just before the '.', when that prefix reaches it) up to the '.'. */
  lemma SniffNameNoLineFeed(s: string)
    requires NoLineFeed(s)
    ensures SniffName(s) ==
      match ExtensionDot(s)
      case Some(dot) => if dot == 0 then None else Some(s[Min(PrefixEnd(s), dot - 1)..dot])
      case None => None
  {
    SniffFromNoLineFeed(s, PrefixEnd(s));
  }

  lemma {:induction false} SniffFolderFromNoLineFeed(s: string, p: nat)
    requires NoLineFeed(s) && p <= |s|
    ensures SniffFolderFrom(s, p) == if s == [] then None else Some(s[Min(p, |s| - 1)..])
    decreases p
  {
    assert LineEnd(s, p) == |s|;
    if p < |s| {
      assert FolderGroupEnd(s, p) == Some(|s|);
      assert s[p..|s|] == s[p..];
    } else {
      assert FolderGroupEnd(s, p) == None;
      if p > 0 {
        SniffFolderFromNoLineFeed(s, p - 1);
      }
    }
  }

  /** For a folder name without line feeds: the title is the name after its
      number-and-separator prefix (its last character if the prefix is the
      whole name), and there is no title only for the empty name. */
  lemma SniffFolderNoLineFeed(s: string)
    requires NoLineFeed(s)
    ensures SniffNameFromFolder(s) == if s == [] then None else Some(s[Min(PrefixEnd(s), |s| - 1)..])
    ensures SniffNameFromFolder(s).None? <==> s == []
  {
    SniffFolderFromNoLineFeed(s, PrefixEnd(s));
  }

  predicate AllSeparators(s: string) {
    forall i :: 0 <= i < |s| ==> IsSeparator(s[i])
  }

  predicate AllWordChars(s: string) {
    forall i :: 0 <= i < |s| ==> IsWordChar(s[i])
  }

  /** The decomposition digits + separators + rest in which both runs are
      as long as they can be. */
  predicate NumberedName(digits: string, seps: string, rest: string) {
    && AllDigits(digits) && AllSeparators(seps) && rest != []
    && !IsSeparator(rest[0]) && (seps == [] ==> !IsDigit(rest[0]))
  }

  lemma PrefixEndOfNumbered(digits: string, seps: string, rest: string)
    requires NumberedName(digits, seps, rest)
    ensures PrefixEnd(digits + seps + rest) == |digits| + |seps|
  {
    var s := digits + seps + rest;
    assert !IsDigit(s[|digits|]) by {
      if seps != [] {
        assert s[|digits|] == seps[0];
      } else {
        assert s[|digits|] == rest[0];
      }
    }
    RunLengthIs(s, 0, IsDigit, |digits|);
    assert s[|digits| + |seps|] == rest[0];
    RunLengthIs(s, |digits|, IsSeparator, |seps|);
  }

  /** A file name made of a track number, separators, a title and an
      extension yields that title. */
  lemma SniffNameStripsPrefix(digits: string, seps: string, rest: string, ext: string)
    requires NumberedName(digits, seps, rest)
    requires NoLineFeed(digits + seps + rest) && ext != [] && AllWordChars(ext)
    ensures SniffName(digits + seps + rest + "." + ext) == Some(rest)
  {
    var stem := digits + seps + rest;
    var s := stem + "." + ext;
    var dot := |stem|;
    assert s == digits + seps + (rest + "." + ext);
    PrefixEndOfNumbered(digits, seps, rest + "." + ext);
    ExtensionOf(stem, ext);
    SniffNameNoLineFeed(s);
    assert s[..dot] == stem;
    assert s[|digits| + |seps|..dot] == stem[|digits| + |seps|..] == rest;
  }

  lemma ExtensionOf(stem: string, ext: string)
    requires NoLineFeed(stem) && ext != [] && AllWordChars(ext)
    ensures NoLineFeed(stem + "." + ext)
    ensures ExtensionDot(stem + "." + ext) == Some(|stem|)
  {
    var s := stem + "." + ext;
    forall i | 0 <= i < |s|
      ensures s[i] != '\n'
    {
      if i < |stem| {
        assert s[i] == stem[i];
      } else if i > |stem| {
        assert s[i] == ext[i - |stem| - 1];
      }
    }
    assert forall j :: |s| - |ext| <= j < |s| ==> s[j] == ext[j - |s| + |ext|];
    TrailingRunIs(s, IsWordChar, |ext|);
  }

  /** A folder name made of a number, separators and a title yields that
      title. */
  lemma SniffFolderStripsPrefix(digits: string, seps: string, rest: string)
    requires NumberedName(digits, seps, rest) && NoLineFeed(digits + seps + rest)
    ensures SniffNameFromFolder(digits + seps + rest) == Some(rest)
  {
    var s := digits + seps + rest;
    PrefixEndOfNumbered(digits, seps, rest);
    SniffFolderNoLineFeed(s);
    assert s[|digits| + |seps|..] == rest;
  }

  /** Backtracking at work: a file named by its number alone keeps the last
      digit of the number as its title. */
  lemma SniffNumberOnlyName(digits: string, ext: string)
    requires digits != [] && AllDigits(digits) && ext != [] && AllWordChars(ext)
    ensures SniffName(digits + "." + ext) == Some(digits[|digits| - 1..])
  {
    var s := digits + "." + ext;
    var dot := |digits|;
    assert NoLineFeed(digits) by {
      forall i | 0 <= i < |digits| ensures digits[i] != '\n' {
        assert IsDigit(digits[i]);
      }
    }
    ExtensionOf(digits, ext);
    DigitRunOf(digits, ext);
    assert Min(PrefixEnd(s), dot - 1) == dot - 1;
    SniffNameNoLineFeed(s);
    assert s[dot - 1..dot] == digits[|digits| - 1..];
  }

  /** The digit run of digits + "." + ext is the digits. */
  lemma DigitRunOf(digits: string, ext: string)
    requires AllDigits(digits)
    ensures RunLength(digits + "." + ext, 0, IsDigit) == |digits|
  {
    var s := digits + "." + ext;
    forall j | 0 <= j < |digits| ensures IsDigit(s[j]) {
      assert s[j] == digits[j];
    }
    assert s[|digits|] == '.';
    RunLengthIs(s, 0, IsDigit, |digits|);
  }
}
