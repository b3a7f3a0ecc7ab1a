/**
 * Templates filled by a chain of `String.prototype.replace` calls with
 * string patterns, as the prompt builders do.  Each call replaces only the
 * FIRST occurrence of its placeholder, in the text as it stands after the
 * previous calls.
 *
 * A template is written as a sequence of pieces, literal text and
 * placeholders.  The central theorem `FillKeepsSuffix` shows that text
 * after the first occurrence of every placeholder filled comes out of the
 * chain verbatim, whatever values are substituted; `FillKeepsTailSlots`
 * draws the consequence that placeholders repeated there stay literal.
 * The brace escaping applied to the candidate's question and answer is
 * here too, with the proof that it does not stop an escaped `{answer}` in
 * the question from capturing the answer.
 */
module Templates {
  import opened TextUtil

  datatype Piece = Text(text: string) | Slot(name: string)

  function SlotPattern(name: string): string
  {
    "{" + name + "}"
  }

  function PieceText(p: Piece): string
  {
    match p
    case Text(t) => t
    case Slot(n) => SlotPattern(n)
  }

  function Render(ps: seq<Piece>): string
  {
    if |ps| == 0 then "" else PieceText(ps[0]) + Render(ps[1..])
  }

  predicate EndsWith(s: string, t: string)
  {
    |t| <= |s| && s[|s| - |t|..] == t
  }

  // ---------------------------------------------------------------------
  // Rendering pieces.

  lemma {:induction false} RenderAppend(a: seq<Piece>, b: seq<Piece>)
    ensures Render(a + b) == Render(a) + Render(b)
  {
    if |a| > 0 {
      assert (a + b)[0] == a[0] && (a + b)[1..] == a[1..] + b;
      RenderAppend(a[1..], b);
      var h := PieceText(a[0]);
      assert Render(a + b) == h + (Render(a[1..]) + Render(b));
      assert h + (Render(a[1..]) + Render(b)) == (h + Render(a[1..])) + Render(b);
    } else {
      assert a + b == b;
    }
  }

  /** A template's text around its `k`-th piece. */
  lemma RenderAround(ps: seq<Piece>, k: nat)
    requires k < |ps|
    ensures Render(ps) == Render(ps[..k]) + PieceText(ps[k]) + Render(ps[k + 1..])
  {
    assert ps[..k] + ps[k..] == ps;
    RenderAppend(ps[..k], ps[k..]);
    assert ps[k..][1..] == ps[k + 1..];
  }

  /** Every placeholder piece of a template shows up in its text. */
  lemma SlotOccurs(ps: seq<Piece>, k: nat)
    requires k < |ps| && ps[k].Slot?
    ensures Occurs(Render(ps), SlotPattern(ps[k].name))
  {
    RenderAround(ps, k);
    OccursInMiddle(Render(ps[..k]), PieceText(ps[k]), Render(ps[k + 1..]));
  }

  // ---------------------------------------------------------------------
  // Placeholder names.

  predicate BraceFree(s: string)
  {
    '{' !in s && '}' !in s
  }

  /**
   * A placeholder name: every character comes before `{` in code order
   * (letters, digits, `_`, `:` and `.` do), so the name holds no brace.
   */
  predicate PlainName(n: string)
  {
    forall k | 0 <= k < |n| :: n[k] < '{'
  }

  lemma PlainNameBraceFree(n: string)
    requires PlainName(n)
    ensures BraceFree(n)
  {
  }

  /** Plain, pairwise different placeholder names. */
  predicate SlotNames(names: seq<string>)
  {
    && (forall k | 0 <= k < |names| :: PlainName(names[k]))
    && (forall j, k | 0 <= j < k < |names| :: names[j] != names[k])
  }

  lemma SlotPatternIsPlaceholder(n: string)
    requires PlainName(n)
    ensures Placeholder(SlotPattern(n))
  {
    var p := SlotPattern(n);
    forall k | 0 < k < |p| - 1 ensures p[k] != '{' && p[k] != '}' {
      assert p[k] == n[k - 1];
    }
  }

  lemma SlotPatternInjective(m: string, n: string)
    requires m != n
    ensures SlotPattern(m) != SlotPattern(n)
  {
    assert SlotPattern(m)[1..|m| + 1] == m;
    if |m| == |n| {
      assert SlotPattern(n)[1..|n| + 1] == n;
    }
  }

  // ---------------------------------------------------------------------
  // The replace chain.

  /**
   * `s.replace('{' + names[0] + '}', values[0]).replace(...)...`: each call
   * replaces the first occurrence of its placeholder in the text left by
   * the calls before it.
   */
  function FillAll(s: string, names: seq<string>, values: seq<string>): string
    requires |names| == |values|
    decreases |names|
  {
    if |names| == 0 then s
    else FillAll(ReplaceFirst(s, SlotPattern(names[0]), values[0]), names[1..], values[1..])
  }

  /** A chain of replacements is the chain of its first part followed by the rest. */
  lemma {:induction false} FillAllSplit(s: string, names: seq<string>, values: seq<string>, k: nat)
    requires |names| == |values| && k <= |names|
    ensures FillAll(s, names, values)
            == FillAll(FillAll(s, names[..k], values[..k]), names[k..], values[k..])
    decreases k
  {
    if k > 0 {
      assert names[..k][1..] == names[1..][..k - 1];
      assert values[..k][1..] == values[1..][..k - 1];
      assert names[k..] == names[1..][k - 1..];
      assert values[k..] == values[1..][k - 1..];
      FillAllSplit(ReplaceFirst(s, SlotPattern(names[0]), values[0]), names[1..], values[1..], k - 1);
    }
  }

  /**
   * When every placeholder of the chain occurs in `x`, the chain only
   * rewrites `x`: the text `y` after it comes out unchanged, whatever the
   * substituted values are (even if they contain placeholders or `$`
   * patterns).
   */
  lemma {:induction false} FillKeepsSuffix(x: string, y: string, names: seq<string>, values: seq<string>)
    requires |names| == |values| && SlotNames(names)
    requires forall n | n in names :: Occurs(x, SlotPattern(n))
    ensures EndsWith(FillAll(x + y, names, values), y)
    decreases |names|
  {
    if |names| > 0 {
      var x' := FillStep(x, y, names, values[0]);
      SlotNamesDrop(names, 1);
      FillKeepsSuffix(x', y, names[1..], values[1..]);
      assert FillAll(x + y, names, values) == FillAll(x' + y, names[1..], values[1..]);
    } else {
      assert FillAll(x + y, names, values) == x + y;
      assert (x + y)[|x|..] == y;
    }
  }

  /**
   * The first replacement of the chain rewrites only `x`, into an `x'`
   * that still holds every later placeholder.
   */
  lemma FillStep(x: string, y: string, names: seq<string>, v: string) returns (x': string)
    requires |names| > 0 && SlotNames(names)
    requires forall n | n in names :: Occurs(x, SlotPattern(n))
    ensures ReplaceFirst(x + y, SlotPattern(names[0]), v) == x' + y
    ensures forall n | n in names[1..] :: Occurs(x', SlotPattern(n))
  {
    var p := SlotPattern(names[0]);
    ReplaceFirstInPrefix(x, y, p, v);
    var i := IndexOf(x, p).value;
    var e := Expand(v, x[..i], p, x[i + |p|..] + y);
    x' := Splice(x, i, |p|, e);
    SpliceKeepsSlots(x, i, e, names);
  }

  /** Filling the first placeholder keeps every later placeholder in the text. */
  lemma SpliceKeepsSlots(x: string, i: nat, e: string, names: seq<string>)
    requires |names| > 0 && SlotNames(names)
    requires At(x, SlotPattern(names[0]), i)
    requires forall n | n in names :: Occurs(x, SlotPattern(n))
    ensures forall n | n in names[1..] ::
              Occurs(Splice(x, i, |SlotPattern(names[0])|, e), SlotPattern(n))
  {
    var p := SlotPattern(names[0]);
    SlotPatternIsPlaceholder(names[0]);
    forall n | n in names[1..]
      ensures Occurs(Splice(x, i, |p|, e), SlotPattern(n))
    {
      var k :| 0 <= k < |names| - 1 && names[1..][k] == n;
      assert names[k + 1] == n;
      SlotPatternIsPlaceholder(n);
      SlotPatternInjective(names[0], n);
      SpliceKeepsOther(x, p, i, e, SlotPattern(n));
    }
  }

  /**
   * Filling placeholders never removes an occurrence of a different
   * placeholder: it may only move.
   */
  lemma {:induction false} FillKeepsOtherPlaceholder(s: string, names: seq<string>, values: seq<string>, q: string)
    requires |names| == |values| && SlotNames(names)
    requires Placeholder(q) && forall k | 0 <= k < |names| :: SlotPattern(names[k]) != q
    requires Occurs(s, q)
    ensures Occurs(FillAll(s, names, values), q)
    decreases |names|
  {
    if |names| > 0 {
      ReplaceFirstKeepsOther(s, names[0], values[0], q);
      SlotNamesDrop(names, 1);
      assert forall k | 0 <= k < |names| - 1 :: names[1..][k] == names[k + 1];
      FillKeepsOtherPlaceholder(ReplaceFirst(s, SlotPattern(names[0]), values[0]), names[1..], values[1..], q);
    }
  }

  /** One replacement keeps an occurrence of a different placeholder. */
  lemma ReplaceFirstKeepsOther(s: string, n: string, v: string, q: string)
    requires PlainName(n) && Placeholder(q) && SlotPattern(n) != q && Occurs(s, q)
    ensures Occurs(ReplaceFirst(s, SlotPattern(n), v), q)
  {
    SlotPatternIsPlaceholder(n);
    ReplaceFirstKeepsPlaceholder(s, SlotPattern(n), v, q);
  }


  lemma PlainNames1()
    ensures PlainName("system_prompt") && PlainName("candidate_name")
    ensures PlainName("candidate_age") && PlainName("experience_years")
  {
  }

  lemma PlainNames2()
    ensures PlainName("role") && PlainName("level")
    ensures PlainName("interview_stage") && PlainName("history_context")
  {
  }

  lemma PlainNames3()
    ensures PlainName("question") && PlainName("answer")
    ensures PlainName("score") && PlainName("missing_topics")
  {
  }

  lemma PlainNames4()
    ensures PlainName("followup_intent") && PlainName("total_questions")
    ensures PlainName("history_summary") && PlainName("avg_score:.1f")
  {
  }

  // ---------------------------------------------------------------------
  // Brace escaping of the candidate's question and answer.

  /** `s.replace(/{/g, '{{').replace(/}/g, '}}')`. */
  function Escape(s: string): (r: string)
    ensures BraceFree(s) ==> r == s
  {
    ReplaceAllChar(ReplaceAllChar(s, '{', "{{"), '}', "}}")
  }

  /** Escaping as a single pass: every brace doubled. */
  function DoubleBraces(s: string): string
  {
    if |s| == 0 then ""
    else (if s[0] == '{' then "{{" else if s[0] == '}' then "}}" else [s[0]]) + DoubleBraces(s[1..])
  }

  /** Collapses `{{` to `{` and `}}` to `}`. */
  function Unescape(s: string): string
  {
    if |s| >= 2 && s[0] == '{' && s[1] == '{' then "{" + Unescape(s[2..])
    else if |s| >= 2 && s[0] == '}' && s[1] == '}' then "}" + Unescape(s[2..])
    else if |s| == 0 then ""
    else [s[0]] + Unescape(s[1..])
  }

  function BraceCount(s: string): nat
  {
    if |s| == 0 then 0 else (if s[0] == '{' || s[0] == '}' then 1 else 0) + BraceCount(s[1..])
  }

  lemma {:induction false} DoubleBracesAppend(a: string, b: string)
    ensures DoubleBraces(a + b) == DoubleBraces(a) + DoubleBraces(b)
  {
    if |a| > 0 {
      assert (a + b)[0] == a[0] && (a + b)[1..] == a[1..] + b;
      DoubleBracesAppend(a[1..], b);
    } else {
      assert a + b == b;
    }
  }

  /** The two global replacements together double every brace and nothing else. */
  lemma {:induction false} EscapeIsDoubleBraces(s: string)
    ensures Escape(s) == DoubleBraces(s)
  {
    if |s| > 0 {
      var h := if s[0] == '{' then "{{" else [s[0]];
      assert ReplaceAllChar(s, '{', "{{") == h + ReplaceAllChar(s[1..], '{', "{{");
      ReplaceAllCharAppend(h, ReplaceAllChar(s[1..], '{', "{{"), '}', "}}");
      if s[0] == '{' {
        assert ReplaceAllChar(h, '}', "}}") == "{{";
      } else {
        assert ReplaceAllChar(h, '}', "}}") == if s[0] == '}' then "}}" else [s[0]];
      }
      EscapeIsDoubleBraces(s[1..]);
    }
  }

  /** Escaping grows the text by exactly its number of braces. */
  lemma {:induction false} EscapeLength(s: string)
    ensures |Escape(s)| == |s| + BraceCount(s)
  {
    EscapeIsDoubleBraces(s);
    DoubleBracesLength(s);
  }

  lemma {:induction false} DoubleBracesLength(s: string)
    ensures |DoubleBraces(s)| == |s| + BraceCount(s)
  {
    if |s| > 0 {
      DoubleBracesLength(s[1..]);
    }
  }

  /** Escaping loses nothing: collapsing doubled braces gives the text back. */
  lemma {:induction false} UnescapeEscape(s: string)
    ensures Unescape(Escape(s)) == s
  {
    EscapeIsDoubleBraces(s);
    UnescapeDoubleBraces(s);
  }

  lemma {:induction false} UnescapeDoubleBraces(s: string)
    ensures Unescape(DoubleBraces(s)) == s
  {
    if |s| > 0 {
      UnescapeDoubleBraces(s[1..]);
      var t := DoubleBraces(s[1..]);
      if s[0] == '{' {
        assert DoubleBraces(s) == "{{" + t;
        assert ("{{" + t)[2..] == t;
      } else if s[0] == '}' {
        assert DoubleBraces(s) == "}}" + t;
        assert ("}}" + t)[2..] == t;
      } else {
        assert DoubleBraces(s) == [s[0]] + t;
        assert ([s[0]] + t)[1..] == t;
      }
    }
  }

  lemma {:induction false} DoubleBracesNoDollar(s: string)
    requires '$' !in s
    ensures '$' !in DoubleBraces(s)
  {
    if |s| > 0 {
      assert '$' !in s[1..];
      DoubleBracesNoDollar(s[1..]);
    }
  }

  /**
   * Escaping does not hide a placeholder: `{answer}` becomes `{{answer}}`,
   * which still contains `{answer}`.
   */
  lemma EscapeKeepsPlaceholder(s: string, n: string)
    requires PlainName(n) && Occurs(s, SlotPattern(n))
    ensures Occurs(Escape(s), SlotPattern(n))
  {
    var p := SlotPattern(n);
    var i: nat :| i <= |s| && At(s, p, i);
    var a, b := s[..i], s[i + |p|..];
    assert s == (a + p) + b;
    EscapeIsDoubleBraces(s);
    DoubleBracesAround(a, n, b);
  }

  /** Doubling the braces of `a + {name} + b` leaves `{name}` inside. */
  lemma DoubleBracesAround(a: string, n: string, b: string)
    requires PlainName(n)
    ensures Occurs(DoubleBraces((a + SlotPattern(n)) + b), SlotPattern(n))
  {
    var p := SlotPattern(n);
    DoubleBracesAppend(a + p, b);
    DoubleBracesAppend(a, p);
    DoubleBracesOfPlaceholder(n);
    OccursInMiddle("{", p, "}");
    OccursInLonger(DoubleBraces(a), p, DoubleBraces(p), DoubleBraces(b));
  }

  /** `{name}` is escaped to `{{name}}`. */
  lemma DoubleBracesOfPlaceholder(n: string)
    requires PlainName(n)
    ensures DoubleBraces(SlotPattern(n)) == "{" + SlotPattern(n) + "}"
  {
    assert SlotPattern(n) == "{" + (n + "}");
    DoubleBracesAppend("{", n + "}");
    DoubleBracesAppend(n, "}");
    PlainNameBraceFree(n);
    DoubleBracesBraceFree(n);
    DoubleBracesOfBraces();
    assert "{{" + (n + "}}") == "{" + SlotPattern(n) + "}";
  }

  lemma DoubleBracesOfBraces()
    ensures DoubleBraces("{") == "{{" && DoubleBraces("}") == "}}"
  {
  }

  lemma {:induction false} DoubleBracesBraceFree(s: string)
    requires BraceFree(s)
    ensures DoubleBraces(s) == s
  {
    if |s| > 0 {
      assert BraceFree(s[1..]);
      DoubleBracesBraceFree(s[1..]);
    }
  }

  // ---------------------------------------------------------------------
  // Templates cut in a head and a tail.

  /**
   * Filling a template's placeholders, each of which occurs in its head,
   * leaves its tail verbatim, whatever the values are.
   */
  lemma FillKeepsTail(head: seq<Piece>, tail: seq<Piece>, names: seq<string>, values: seq<string>)
    requires |names| == |values| && SlotNames(names)
    requires forall n | n in names :: Slot(n) in head
    ensures EndsWith(FillAll(Render(head + tail), names, values), Render(tail))
  {
    RenderAppend(head, tail);
    forall n | n in names ensures Occurs(Render(head), SlotPattern(n)) {
      var j :| 0 <= j < |head| && head[j] == Slot(n);
      SlotOccurs(head, j);
    }
    FillKeepsSuffix(Render(head), Render(tail), names, values);
  }

  /**
   * So every placeholder written in the tail is still in the filled text,
   * unfilled, even when the chain fills a placeholder of the same name
   * in the head.
   */
  lemma FillKeepsTailSlots(head: seq<Piece>, tail: seq<Piece>, names: seq<string>, values: seq<string>)
    requires |names| == |values| && SlotNames(names)
    requires forall n | n in names :: Slot(n) in head
    ensures forall k | 0 <= k < |tail| && tail[k].Slot? ::
              Occurs(FillAll(Render(head + tail), names, values), SlotPattern(tail[k].name))
  {
    var r := FillAll(Render(head + tail), names, values);
    FillKeepsTail(head, tail, names, values);
    forall k | 0 <= k < |tail| && tail[k].Slot? ensures Occurs(r, SlotPattern(tail[k].name)) {
      TailSlotOccurs(r, tail, k);
    }
  }

  lemma TailSlotOccurs(r: string, tail: seq<Piece>, k: nat)
    requires EndsWith(r, Render(tail)) && k < |tail| && tail[k].Slot?
    ensures Occurs(r, SlotPattern(tail[k].name))
  {
    var t, pat := Render(tail), SlotPattern(tail[k].name);
    SlotOccurs(tail, k);
    OccursInSuffix(r, t, pat);
  }

  /**
   * Escaping does not protect the answer placeholder: after the question
   * is filled in, a question containing `{answer}` (escaped to
   * `{{answer}}`) holds the first `{answer}`, so the answer is written
   * into the question and the template's own `{answer}` slot, with
   * everything after it, is left as it was.
   */
  lemma {:induction false} EscapedQuestionCapturesAnswer(x: string, y: string, v0: string, q: string, a: string)
    requires Occurs(x, SlotPattern("system_prompt")) && Occurs(x, SlotPattern("question"))
    requires '$' !in q && Occurs(q, SlotPattern("answer"))
    ensures EndsWith(FillAll(x + y, ["system_prompt", "question", "answer"], [v0, Escape(q), a]), y)
  {
    var sp, qp, ap := SlotPattern("system_prompt"), SlotPattern("question"), SlotPattern("answer");
    PlainNames1();
    PlainNames3();
    SlotPatternIsPlaceholder("system_prompt");
    SlotPatternIsPlaceholder("question");
    ReplaceFirstInPrefix(x, y, sp, v0);
    var i := IndexOf(x, sp).value;
    var e1 := Expand(v0, x[..i], sp, x[i + |sp|..] + y);
    var x1 := Splice(x, i, |sp|, e1);
    SpliceKeepsOther(x, sp, i, e1, qp);
    var s1 := ReplaceFirst(x + y, sp, v0);
    assert s1 == x1 + y;

    ReplaceFirstInPrefix(x1, y, qp, Escape(q));
    var j := IndexOf(x1, qp).value;
    EscapeIsDoubleBraces(q);
    DoubleBracesNoDollar(q);
    ExpandPlain(Escape(q), x1[..j], qp, x1[j + |qp|..] + y);
    var x2 := Splice(x1, j, |qp|, Escape(q));
    EscapeKeepsPlaceholder(q, "answer");
    OccursInLonger(x1[..j], ap, Escape(q), x1[j + |qp|..]);
    var s2 := ReplaceFirst(s1, qp, Escape(q));
    assert s2 == x2 + y;

    ReplaceFirstInPrefix(x2, y, ap, a);
    var s3 := ReplaceFirst(s2, ap, a);
    assert FillAll(s2, ["answer"], [a]) == s3;
    assert FillAll(s1, ["question", "answer"], [Escape(q), a]) == s3;
  }

  /**
   * In a text `x + y` where `x` holds `{system_prompt}` and `{question}`
   * and `y` holds `{answer}`, filled with `system_prompt`, `question`,
   * `answer` first: an escaped question that contains `{answer}` captures
   * the answer, `y` survives, and `{answer}` is still in the result.
   */
  lemma AnswerCapturedInText(x: string, y: string, names: seq<string>, values: seq<string>, q: string)
    requires |names| == |values| && 3 <= |names| && SlotNames(names)
    requires names[0] == "system_prompt" && names[1] == "question" && names[2] == "answer"
    requires values[1] == Escape(q)
    requires Occurs(x, SlotPattern("system_prompt")) && Occurs(x, SlotPattern("question"))
    requires Occurs(y, SlotPattern("answer"))
    requires '$' !in q && Occurs(q, SlotPattern("answer"))
    ensures EndsWith(FillAll(x + y, names[..3], values[..3]), y)
    ensures Occurs(FillAll(x + y, names, values), SlotPattern("answer"))
  {
    assert names[..3] == ["system_prompt", "question", "answer"];
    assert values[..3] == [values[0], Escape(q), values[2]];
    EscapedQuestionCapturesAnswer(x, y, values[0], q, values[2]);
    var s3 := FillAll(x + y, names[..3], values[..3]);
    OccursInSuffix(s3, y, SlotPattern("answer"));
    FillAllSplit(x + y, names, values, 3);
    LaterSlotsKeepAnswer(s3, names, values);
  }

  /** The replacements after `{answer}` keep an `{answer}` that is in the text. */
  lemma LaterSlotsKeepAnswer(s: string, names: seq<string>, values: seq<string>)
    requires |names| == |values| && 3 <= |names| && SlotNames(names) && names[2] == "answer"
    requires Occurs(s, SlotPattern("answer"))
    ensures Occurs(FillAll(s, names[3..], values[3..]), SlotPattern("answer"))
  {
    PlainNames3();
    SlotPatternIsPlaceholder("answer");
    forall k | 0 <= k < |names[3..]| ensures SlotPattern(names[3..][k]) != SlotPattern("answer") {
      assert names[3..][k] == names[k + 3];
      SlotPatternInjective(names[k + 3], "answer");
    }
    SlotNamesDrop(names, 3);
    FillKeepsOtherPlaceholder(s, names[3..], values[3..], SlotPattern("answer"));
  }

  lemma SlotNamesDrop(names: seq<string>, d: nat)
    requires d <= |names| && SlotNames(names)
    ensures SlotNames(names[d..])
  {
    forall k | 0 <= k < |names| - d ensures PlainName(names[d..][k]) {
      assert names[d..][k] == names[k + d];
    }
    forall j, k | 0 <= j < k < |names| - d ensures names[d..][j] != names[d..][k] {
      assert names[d..][j] == names[j + d] && names[d..][k] == names[k + d];
    }
  }

  /**
   * The same for a template `lead + head + tail` whose lead holds
   * `{system_prompt}` and `{question}` and whose head starts with
   * `{answer}`: the text from the template's own `{answer}` slot on
   * survives the first three replacements.
   */
  lemma AnswerCapturedInTemplate(lead: seq<Piece>, head: seq<Piece>, tail: seq<Piece>,
                                 names: seq<string>, values: seq<string>, q: string)
    requires |names| == |values| && 3 <= |names| && SlotNames(names)
    requires names[0] == "system_prompt" && names[1] == "question" && names[2] == "answer"
    requires values[1] == Escape(q)
    requires Slot("system_prompt") in lead && Slot("question") in lead
    requires |head| > 0 && head[0] == Slot("answer")
    requires '$' !in q && Occurs(q, SlotPattern("answer"))
    ensures EndsWith(FillAll(Render(lead + head + tail), names[..3], values[..3]), Render(head + tail))
    ensures Occurs(FillAll(Render(lead + head + tail), names, values), SlotPattern("answer"))
  {
    assert lead + head + tail == lead + (head + tail);
    RenderAppend(lead, head + tail);
    var i :| 0 <= i < |lead| && lead[i] == Slot("system_prompt");
    var j :| 0 <= j < |lead| && lead[j] == Slot("question");
    SlotOccurs(lead, i);
    SlotOccurs(lead, j);
    assert (head + tail)[0] == Slot("answer");
    SlotOccurs(head + tail, 0);
    AnswerCapturedInText(Render(lead), Render(head + tail), names, values, q);
  }
}
