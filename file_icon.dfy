/**
 * The icon chooser of `src/components/FileIcon.tsx`: a chain of tests on the
 * MIME type string, tried in order, the first that passes choosing the icon.
 */
module FileIcon {
  import opened Common
  import opened Text

  datatype IconKind =
    | ImageIcon | VideoIcon | AudioIcon | PdfIcon | SpreadsheetIcon
    | ArchiveIcon | CodeIcon | TextIcon | GenericIcon

  datatype IconSize = Small | Medium | Large

  /** The `size` prop, `md` when it is not given. */
  function SizeOrDefault(size: Option<IconSize>): (r: IconSize)
    ensures size.None? ==> r == Medium
    ensures size.Some? ==> r == size.value
  {
    if size.Some? then size.value else Medium
  }

  /** `getIconConfig`, test by test as the component writes it. */
  function GetIconConfig(t: string): IconKind
  {
    if StartsWith(t, "image/") then ImageIcon
    else if StartsWith(t, "video/") then VideoIcon
    else if StartsWith(t, "audio/") then AudioIcon
    else if Contains(t, "pdf") then PdfIcon
    else if Contains(t, "spreadsheet") || Contains(t, "excel") || Contains(t, "csv") then SpreadsheetIcon
    else if Contains(t, "zip") || Contains(t, "rar") || Contains(t, "archive") then ArchiveIcon
    else if Contains(t, "javascript") || Contains(t, "json") || Contains(t, "html")
            || Contains(t, "css") || Contains(t, "xml") then CodeIcon
    else if Contains(t, "text") || Contains(t, "document") || Contains(t, "word") then TextIcon
    else GenericIcon
  }

  // ---------------------------------------------------------------------
  // The chain as a table of rules with first-match semantics
  // ---------------------------------------------------------------------

  datatype Test = Prefix(prefix: string) | AnyOf(words: seq<string>)

  datatype Rule = Rule(test: Test, kind: IconKind)

  predicate Passes(test: Test, t: string)
  {
    match test
    case Prefix(p) => StartsWith(t, p)
    case AnyOf(words) => ContainsAny(t, words)
  }

  /** Some word of `words` occurs in `t`. */
  predicate ContainsAny(t: string, words: seq<string>)
  {
    words != [] && (Contains(t, words[0]) || ContainsAny(t, words[1..]))
  }

  const ImageRule := Rule(Prefix("image/"), ImageIcon)
  const VideoRule := Rule(Prefix("video/"), VideoIcon)
  const AudioRule := Rule(Prefix("audio/"), AudioIcon)
  const PdfRule := Rule(AnyOf(["pdf"]), PdfIcon)
  const SpreadsheetRule := Rule(AnyOf(["spreadsheet", "excel", "csv"]), SpreadsheetIcon)
  const ArchiveRule := Rule(AnyOf(["zip", "rar", "archive"]), ArchiveIcon)
  const CodeRule := Rule(AnyOf(["javascript", "json", "html", "css", "xml"]), CodeIcon)
  const TextRule := Rule(AnyOf(["text", "document", "word"]), TextIcon)

  /** The rules in the order the component tries them. */
  const Rules: seq<Rule> :=
    [ImageRule, VideoRule, AudioRule, PdfRule, SpreadsheetRule, ArchiveRule, CodeRule, TextRule]

  /** The kind of the first rule that passes, the generic icon when none does. */
  function FirstMatch(rules: seq<Rule>, t: string): (k: IconKind)
    ensures k == GenericIcon || exists j :: 0 <= j < |rules| && k == rules[j].kind
  {
    if rules == [] then GenericIcon
    else if Passes(rules[0].test, t) then rules[0].kind
    else FirstMatch(rules[1..], t)
  }

  /** Each kind is chosen by at most one rule, and the fallback by none. */
  ghost predicate DistinctKinds(rules: seq<Rule>)
  {
    && (forall i :: 0 <= i < |rules| ==> rules[i].kind != GenericIcon)
    && (forall i, j :: 0 <= i < j < |rules| ==> rules[i].kind != rules[j].kind)
  }

  /** What each rule of the table tests. */
  lemma RuleTests(t: string)
    ensures Passes(ImageRule.test, t) == StartsWith(t, "image/")
    ensures Passes(VideoRule.test, t) == StartsWith(t, "video/")
    ensures Passes(AudioRule.test, t) == StartsWith(t, "audio/")
    ensures Passes(PdfRule.test, t) == Contains(t, "pdf")
    ensures Passes(SpreadsheetRule.test, t)
            == (Contains(t, "spreadsheet") || Contains(t, "excel") || Contains(t, "csv"))
    ensures Passes(ArchiveRule.test, t) == (Contains(t, "zip") || Contains(t, "rar") || Contains(t, "archive"))
    ensures Passes(CodeRule.test, t)
            == (Contains(t, "javascript") || Contains(t, "json") || Contains(t, "html")
                || Contains(t, "css") || Contains(t, "xml"))
    ensures Passes(TextRule.test, t) == (Contains(t, "text") || Contains(t, "document") || Contains(t, "word"))
  {
    assert ContainsAny(t, ["pdf"]) == Contains(t, "pdf");
    assert ContainsAny(t, ["csv"]) == Contains(t, "csv");
    assert ContainsAny(t, ["excel", "csv"]) == (Contains(t, "excel") || Contains(t, "csv"));
    assert ContainsAny(t, ["archive"]) == Contains(t, "archive");
    assert ContainsAny(t, ["rar", "archive"]) == (Contains(t, "rar") || Contains(t, "archive"));
    assert ContainsAny(t, ["xml"]) == Contains(t, "xml");
    assert ContainsAny(t, ["css", "xml"]) == (Contains(t, "css") || Contains(t, "xml"));
    assert ContainsAny(t, ["html", "css", "xml"]) == (Contains(t, "html") || Contains(t, "css") || Contains(t, "xml"));
    assert ContainsAny(t, ["json", "html", "css", "xml"])
           == (Contains(t, "json") || Contains(t, "html") || Contains(t, "css") || Contains(t, "xml"));
    assert ContainsAny(t, ["word"]) == Contains(t, "word");
    assert ContainsAny(t, ["document", "word"]) == (Contains(t, "document") || Contains(t, "word"));
  }

  /** The table read top to bottom, one rule at a time. */
  lemma UnrollRules(t: string)
    ensures FirstMatch(Rules, t) ==
      if Passes(ImageRule.test, t) then ImageIcon
      else if Passes(VideoRule.test, t) then VideoIcon
      else if Passes(AudioRule.test, t) then AudioIcon
      else if Passes(PdfRule.test, t) then PdfIcon
      else if Passes(SpreadsheetRule.test, t) then SpreadsheetIcon
      else if Passes(ArchiveRule.test, t) then ArchiveIcon
      else if Passes(CodeRule.test, t) then CodeIcon
      else if Passes(TextRule.test, t) then TextIcon
      else GenericIcon
  {
    var r := Rules;
    FirstMatchStep(r[7..], t);
    assert r[7..][1..] == [];
    FirstMatchStep(r[6..], t);
    assert r[6..][1..] == r[7..];
    FirstMatchStep(r[5..], t);
    assert r[5..][1..] == r[6..];
    FirstMatchStep(r[4..], t);
    assert r[4..][1..] == r[5..];
    FirstMatchStep(r[3..], t);
    assert r[3..][1..] == r[4..];
    FirstMatchStep(r[2..], t);
    assert r[2..][1..] == r[3..];
    FirstMatchStep(r[1..], t);
    assert r[1..][1..] == r[2..];
    FirstMatchStep(r, t);
  }

  /** The component's if-chain is the rule table read top to bottom. */
  lemma ChainIsRuleTable(t: string)
    ensures GetIconConfig(t) == FirstMatch(Rules, t)
  {
    RuleTests(t);
    UnrollRules(t);
  }

  /** One step of the table: the head rule decides, or the rest of the table does. */
  lemma FirstMatchStep(rules: seq<Rule>, t: string)
    requires rules != []
    ensures FirstMatch(rules, t) == if Passes(rules[0].test, t) then rules[0].kind else FirstMatch(rules[1..], t)
  {
  }

  /**
   * First match wins: a table with distinct kinds gives rule `i`'s kind
   * exactly when rule `i` passes and no earlier rule does.
   */
  lemma {:induction false} FirstMatchIff(rules: seq<Rule>, t: string, i: int)
    requires DistinctKinds(rules) && 0 <= i < |rules|
    ensures FirstMatch(rules, t) == rules[i].kind
            <==> Passes(rules[i].test, t) && forall j :: 0 <= j < i ==> !Passes(rules[j].test, t)
  {
    if i == 0 {
      if !Passes(rules[0].test, t) {
        var k := FirstMatch(rules[1..], t);
        if k != GenericIcon {
          var j :| 0 <= j < |rules| - 1 && k == rules[1..][j].kind;
          assert rules[j + 1].kind == k;
        }
      }
    } else {
      if Passes(rules[0].test, t) {
        assert rules[0].kind != rules[i].kind;
      } else {
        var rest := rules[1..];
        assert DistinctKinds(rest);
        FirstMatchIff(rest, t, i - 1);
        assert rest[i - 1] == rules[i];
        assert (forall j :: 0 <= j < i - 1 ==> !Passes(rest[j].test, t))
               <==> (forall j :: 0 <= j < i ==> !Passes(rules[j].test, t)) by {
          assert forall j :: 0 < j < i ==> rest[j - 1] == rules[j];
        }
      }
    }
  }

  /** The fallback is given exactly when no rule passes. */
  lemma {:induction false} FirstMatchGeneric(rules: seq<Rule>, t: string)
    requires DistinctKinds(rules)
    ensures FirstMatch(rules, t) == GenericIcon <==> forall j :: 0 <= j < |rules| ==> !Passes(rules[j].test, t)
  {
    if rules != [] && !Passes(rules[0].test, t) {
      var rest := rules[1..];
      assert DistinctKinds(rest);
      FirstMatchGeneric(rest, t);
      assert forall j :: 0 < j < |rules| ==> rest[j - 1] == rules[j];
    }
  }

  lemma RulesHaveDistinctKinds()
    ensures DistinctKinds(Rules)
  {
    var kinds := [ImageIcon, VideoIcon, AudioIcon, PdfIcon, SpreadsheetIcon, ArchiveIcon, CodeIcon, TextIcon];
    assert forall i :: 0 <= i < |Rules| ==> Rules[i].kind == kinds[i];
  }

  /**
   * Every type gets exactly one icon: the icon of rule `i` when that rule is
   * the first to pass, the generic icon when none passes.
   */
  lemma IconIsFirstPassingRule(t: string, i: int)
    requires 0 <= i < |Rules|
    ensures GetIconConfig(t) == Rules[i].kind
            <==> Passes(Rules[i].test, t) && forall j :: 0 <= j < i ==> !Passes(Rules[j].test, t)
    ensures GetIconConfig(t) == GenericIcon <==> forall j :: 0 <= j < |Rules| ==> !Passes(Rules[j].test, t)
  {
    ChainIsRuleTable(t);
    RulesHaveDistinctKinds();
    FirstMatchIff(Rules, t, i);
    FirstMatchGeneric(Rules, t);
  }

  /** The three media prefixes choose the image, video and audio icons. */
  lemma MediaPrefixes(rest: string)
    ensures GetIconConfig("image/" + rest) == ImageIcon
    ensures GetIconConfig("video/" + rest) == VideoIcon
    ensures GetIconConfig("audio/" + rest) == AudioIcon
  {
    assert ("video/" + rest)[0] != 'i' && ("audio/" + rest)[0] != 'i' && ("audio/" + rest)[0] != 'v';
  }
}
