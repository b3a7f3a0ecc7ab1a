/**
 * The results view: how a rubric category name becomes its label
 * (`category.replace(/_/g, ' ').replace(/\b\w/g, l => l.toUpperCase())`)
 * and which optional parts of the report are rendered.
 */
module ResultsSection {
  import opened TextUtil
  import opened Types

  /** `\w`: an ASCII letter, digit or underscore. */
  predicate IsWordChar(c: char)
  {
    ('a' <= c <= 'z') || ('A' <= c <= 'Z') || ('0' <= c <= '9') || c == '_'
  }

  /** `toUpperCase` of a word character. */
  function Upper(c: char): char
  {
    if 'a' <= c <= 'z' then (c as int - 'a' as int + 'A' as int) as char else c
  }

  /** `\b\w` matches at `i`: a word character with no word character just before it. */
  predicate StartsWord(s: string, i: nat)
    requires i < |s|
  {
    IsWordChar(s[i]) && (i == 0 || !IsWordChar(s[i - 1]))
  }

  /** Every character that starts a word upper-cased, every other one kept. */
  function TitleCase(s: string): (r: string)
    ensures |r| == |s|
    ensures forall i | 0 <= i < |s| :: r[i] == if StartsWord(s, i) then Upper(s[i]) else s[i]
  {
    seq(|s|, i requires 0 <= i < |s| => if StartsWord(s, i) then Upper(s[i]) else s[i])
  }

  /** The label shown for a rubric category. */
  function CategoryLabel(category: string): string
  {
    TitleCase(ReplaceAllChar(category, '_', " "))
  }

  /**
   * The label has the category's length; an underscore becomes a space; a
   * letter that starts a word is upper-cased; every other character is kept.
   */
  lemma CategoryLabelSpec(category: string)
    ensures |CategoryLabel(category)| == |category|
    ensures forall i | 0 <= i < |category| ::
              var u := ReplaceAllChar(category, '_', " ");
              && (category[i] == '_' ==> CategoryLabel(category)[i] == ' ')
              && (category[i] != '_' && StartsWord(u, i) ==> CategoryLabel(category)[i] == Upper(category[i]))
              && (category[i] != '_' && !StartsWord(u, i) ==> CategoryLabel(category)[i] == category[i])
    ensures '_' !in CategoryLabel(category)
  {
    ReplaceAllCharByChar(category, '_', ' ');
    var shown := CategoryLabel(category);
    assert forall i | 0 <= i < |shown| :: shown[i] != '_';
  }

  /** Upper-casing keeps word characters word characters and is idempotent. */
  lemma UpperKeepsWordChars(c: char)
    ensures IsWordChar(Upper(c)) <==> IsWordChar(c)
    ensures Upper(Upper(c)) == Upper(c)
    ensures Upper(c) != '_' || c == '_'
  {
  }

  /** Title-casing twice is title-casing once. */
  lemma TitleCaseIdempotent(s: string)
    ensures TitleCase(TitleCase(s)) == TitleCase(s)
  {
    var t := TitleCase(s);
    forall i | 0 <= i < |s| ensures StartsWord(t, i) == StartsWord(s, i) {
      UpperKeepsWordChars(s[i]);
      if i > 0 {
        UpperKeepsWordChars(s[i - 1]);
      }
    }
    forall i | 0 <= i < |s| ensures TitleCase(t)[i] == t[i] {
      UpperKeepsWordChars(s[i]);
    }
  }

  /** The label of a label is the label itself. */
  lemma CategoryLabelIdempotent(category: string)
    ensures CategoryLabel(CategoryLabel(category)) == CategoryLabel(category)
  {
    var shown := CategoryLabel(category);
    CategoryLabelSpec(category);
    assert ReplaceAllChar(shown, '_', " ") == shown;
    TitleCaseIdempotent(ReplaceAllChar(category, '_', " "));
  }

  predicate LowerWord(w: string)
  {
    |w| > 0 && forall i | 0 <= i < |w| :: 'a' <= w[i] <= 'z'
  }

  /** A lower-case word with its first letter upper-cased. */
  function Capitalized(w: string): string
    requires |w| > 0
  {
    [Upper(w[0])] + w[1..]
  }

  /** `a_b` for two lower-case words is labelled `A b` with both initials capitalized. */
  lemma LabelOfTwoWords(a: string, b: string)
    requires LowerWord(a) && LowerWord(b)
    ensures CategoryLabel(a + "_" + b) == Capitalized(a) + " " + Capitalized(b)
  {
    UnderscoreToSpace(a, b);
    TitleCaseOfTwoWords(a, b);
  }

  lemma UnderscoreToSpace(a: string, b: string)
    requires LowerWord(a) && LowerWord(b)
    ensures ReplaceAllChar(a + "_" + b, '_', " ") == a + " " + b
  {
    assert forall i | 0 <= i < |a| :: a[i] != '_';
    assert forall i | 0 <= i < |b| :: b[i] != '_';
    ReplaceAllCharAppend(a + "_", b, '_', " ");
    ReplaceAllCharAppend(a, "_", '_', " ");
    assert ReplaceAllChar("_", '_', " ") == " ";
  }

  lemma TitleCaseOfTwoWords(a: string, b: string)
    requires LowerWord(a) && LowerWord(b)
    ensures TitleCase(a + " " + b) == Capitalized(a) + " " + Capitalized(b)
  {
    var u := a + " " + b;
    var e := Capitalized(a) + " " + Capitalized(b);
    assert |e| == |u|;
    forall i | 0 <= i < |u| ensures TitleCase(u)[i] == e[i] {
      var n := |a|;
      if i == 0 {
        assert u[0] == a[0] && e[0] == Upper(a[0]);
      } else if i < n {
        assert u[i] == a[i] && u[i - 1] == a[i - 1] && e[i] == a[i];
      } else if i == n {
        assert u[i] == ' ' && e[i] == ' ';
      } else if i == n + 1 {
        assert u[i] == b[0] && u[i - 1] == ' ' && e[i] == Upper(b[0]);
      } else {
        assert u[i] == b[i - n - 1] && u[i - 1] == b[i - n - 2] && e[i] == b[i - n - 1];
      }
    }
  }

  /** A single lower-case word is labelled with its initial capitalized. */
  lemma LabelOfOneWord(a: string)
    requires LowerWord(a)
    ensures CategoryLabel(a) == Capitalized(a)
  {
    ReplaceAllCharByChar(a, '_', ' ');
    assert ReplaceAllChar(a, '_', " ") == a;
    assert TitleCase(a) == Capitalized(a);
  }

  // The four categories the report prompt asks for.

  lemma TechnicalKnowledgeLabel()
    ensures CategoryLabel("technical_knowledge") == "Technical Knowledge"
  {
    assert Capitalized("technical") == "Technical";
    assert Capitalized("knowledge") == "Knowledge";
    assert "Technical Knowledge" == "Technical" + " " + "Knowledge";
    assert "technical_knowledge" == "technical" + "_" + "knowledge";
    LabelOfTwoWords("technical", "knowledge");
  }

  lemma ProblemSolvingLabel()
    ensures CategoryLabel("problem_solving") == "Problem Solving"
  {
    assert Capitalized("problem") == "Problem";
    assert Capitalized("solving") == "Solving";
    assert "Problem Solving" == "Problem" + " " + "Solving";
    assert "problem_solving" == "problem" + "_" + "solving";
    LabelOfTwoWords("problem", "solving");
  }

  lemma CommunicationLabel()
    ensures CategoryLabel("communication") == "Communication"
  {
    assert Capitalized("communication") == "Communication";
    LabelOfOneWord("communication");
  }

  lemma ExperienceRelevanceLabel()
    ensures CategoryLabel("experience_relevance") == "Experience Relevance"
  {
    assert Capitalized("experience") == "Experience";
    assert Capitalized("relevance") == "Relevance";
    assert "Experience Relevance" == "Experience" + " " + "Relevance";
    assert "experience_relevance" == "experience" + "_" + "relevance";
    LabelOfTwoWords("experience", "relevance");
  }

  /**
   * The report-dependent headings rendered for a report, in order (the
   * fixed title "Interview Complete!" above them is left out).
   */
  function Headings(report: FinalReport): (hs: seq<string>)
    ensures |hs| >= 2 && hs[..2] == ["Overall Score", "Summary"]
    ensures "Rubric Breakdown" in hs <==> report.rubricBreakdown.Some? && |report.rubricBreakdown.value| > 0
    ensures "Next Steps" in hs <==> report.nextSteps.Some? && |report.nextSteps.value| > 0
  {
    ["Overall Score", "Summary"]
    + (if report.rubricBreakdown.Some? && |report.rubricBreakdown.value| > 0 then ["Rubric Breakdown"] else [])
    + (if report.nextSteps.Some? && |report.nextSteps.value| > 0 then ["Next Steps"] else [])
  }
}
