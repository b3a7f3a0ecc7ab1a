/**
 * Text and number helpers shared by the model: the JavaScript string
 * operations the application relies on (`trim`, `indexOf`, first-occurrence
 * `replace` with its `$` replacement patterns, `substring`, `join`,
 * `padStart`), and the conversions of numbers to text (`toString`,
 * `toFixed(1)`) and of text to integers (`parseInt`).
 */
module TextUtil {

  datatype Option<+T> = None | Some(value: T)

  datatype Result<+T> = Ok(value: T) | Err(error: string)

  // ---------------------------------------------------------------------
  // Whitespace, as JavaScript's `trim` and the regular-expression class
  // `\s` understand it (WhiteSpace and LineTerminator code points).

  predicate IsLineTerminator(c: char)
  {
    c == '\n' || c == '\r' || c == '\U{2028}' || c == '\U{2029}'
  }

  predicate IsWhitespace(c: char)
  {
    || IsLineTerminator(c)
    || c == ' ' || c == '\t' || c == '\U{000B}' || c == '\U{000C}'
    || c == '\U{00A0}' || c == '\U{FEFF}' || c == '\U{1680}'
    || ('\U{2000}' <= c <= '\U{200A}')
    || c == '\U{202F}' || c == '\U{205F}' || c == '\U{3000}'
  }

  predicate AllWhitespace(s: string)
  {
    forall k | 0 <= k < |s| :: IsWhitespace(s[k])
  }

  /** `s.trimStart()`: drops the leading whitespace. */
  function TrimStart(s: string): (r: string)
    ensures |r| <= |s|
  {
    if |s| > 0 && IsWhitespace(s[0]) then TrimStart(s[1..]) else s
  }

  /** What `trimStart` drops is whitespace, and what it keeps does not start with any. */
  lemma {:induction false} TrimStartSpec(s: string)
    ensures var r := TrimStart(s);
      && r == s[|s| - |r|..]
      && AllWhitespace(s[..|s| - |r|])
      && (r == [] || !IsWhitespace(r[0]))
  {
    if |s| > 0 && IsWhitespace(s[0]) {
      TrimStartSpec(s[1..]);
      var r := TrimStart(s);
      assert s[1..][..|s| - 1 - |r|] == s[1..|s| - |r|];
      forall k | 0 <= k < |s| - |r| ensures IsWhitespace(s[k]) {
        if k > 0 { assert s[k] == s[1..][k - 1]; }
      }
    }
  }

  /** `s.trimEnd()`: drops the trailing whitespace. */
  function TrimEnd(s: string): (r: string)
    ensures |r| <= |s|
  {
    if |s| > 0 && IsWhitespace(s[|s| - 1]) then TrimEnd(s[..|s| - 1]) else s
  }

  /** What `trimEnd` drops is whitespace, and what it keeps does not end with any. */
  lemma {:induction false} TrimEndSpec(s: string)
    ensures var r := TrimEnd(s);
      && r == s[..|r|]
      && AllWhitespace(s[|r|..])
      && (r == [] || !IsWhitespace(r[|r| - 1]))
  {
    if |s| > 0 && IsWhitespace(s[|s| - 1]) {
      TrimEndSpec(s[..|s| - 1]);
      var r := TrimEnd(s);
      forall k | |r| <= k < |s| ensures IsWhitespace(s[k]) {
        if k < |s| - 1 { assert s[k] == s[..|s| - 1][k]; }
      }
    }
  }

  /** `s.trim()`: the longest middle part of `s` with whitespace at neither end. */
  function Trim(s: string): (r: string)
    ensures |r| <= |s|
  {
    TrimEnd(TrimStart(s))
  }

  /** The trimmed text has whitespace at neither end. */
  lemma TrimSpec(s: string)
    ensures Trim(s) == [] || (!IsWhitespace(Trim(s)[0]) && !IsWhitespace(Trim(s)[|Trim(s)| - 1]))
  {
    TrimStartSpec(s);
    TrimEndSpec(TrimStart(s));
  }

  /** Trimming a string without whitespace at either end changes nothing. */
  lemma TrimOfTrimmed(s: string)
    requires s == [] || (!IsWhitespace(s[0]) && !IsWhitespace(s[|s| - 1]))
    ensures Trim(s) == s
  {
  }

  /** `trim` is idempotent. */
  lemma TrimIdempotent(s: string)
    ensures Trim(Trim(s)) == Trim(s)
  {
    TrimSpec(s);
    TrimOfTrimmed(Trim(s));
  }

  /** A string is blank (`!s.trim()`) exactly when it is all whitespace. */
  lemma {:induction false} TrimEmptyIffBlank(s: string)
    ensures Trim(s) == [] <==> AllWhitespace(s)
  {
    TrimEndSpec(TrimStart(s));
    if |s| > 0 && IsWhitespace(s[0]) {
      TrimEmptyIffBlank(s[1..]);
      assert AllWhitespace(s[1..]) ==> AllWhitespace(s) by {
        if AllWhitespace(s[1..]) {
          forall k | 0 <= k < |s| ensures IsWhitespace(s[k]) {
            if k > 0 { assert s[k] == s[1..][k - 1]; }
          }
        }
      }
    }
  }

  // ---------------------------------------------------------------------
  // Searching.

  /** Trailing whitespace does not survive `trimEnd`. */
  lemma {:induction false} TrimEndAppendWhitespace(x: string, w: string)
    requires AllWhitespace(w)
    ensures TrimEnd(x + w) == TrimEnd(x)
    decreases |w|
  {
    if |w| == 0 {
      assert x + w == x;
    } else {
      var w' := w[..|w| - 1];
      assert (x + w)[..|x + w| - 1] == x + w';
      assert AllWhitespace(w') by {
        forall k | 0 <= k < |w'| ensures IsWhitespace(w'[k]) {
          assert w'[k] == w[k];
        }
      }
      TrimEndAppendWhitespace(x, w');
    }
  }

  /** Appending whitespace does not change the trimmed text. */
  lemma {:induction false} TrimAppendWhitespace(a: string, w: string)
    requires AllWhitespace(w)
    ensures Trim(a + w) == Trim(a)
    decreases |a|
  {
    if |a| == 0 {
      assert a + w == w;
      TrimStartSpec(w);
    } else if IsWhitespace(a[0]) {
      assert (a + w)[1..] == a[1..] + w;
      TrimAppendWhitespace(a[1..], w);
    } else {
      TrimEndAppendWhitespace(a, w);
    }
  }

  /** `p` occurs in `s` at index `i`. */
  predicate At(s: string, p: string, i: nat)
  {
    i + |p| <= |s| && s[i..i + |p|] == p
  }

  predicate Occurs(s: string, p: string)
  {
    exists i: nat | i <= |s| :: At(s, p, i)
  }

  /** The first index at or after `from` where `p` occurs. */
  function IndexFrom(s: string, p: string, from: nat): (r: Option<nat>)
    ensures r.Some? ==> from <= r.value && r.value + |p| <= |s|
    decreases |s| - from
  {
    if from + |p| > |s| then None
    else if s[from..from + |p|] == p then Some(from)
    else IndexFrom(s, p, from + 1)
  }

  lemma {:induction false} IndexFromSpec(s: string, p: string, from: nat)
    ensures var r := IndexFrom(s, p, from);
            && (r.Some? ==> from <= r.value && At(s, p, r.value))
            && (r.Some? ==> forall j: nat :: from <= j < r.value ==> !At(s, p, j))
            && (r.None? ==> forall j: nat :: from <= j ==> !At(s, p, j))
    decreases |s| - from
  {
    if from + |p| <= |s| && s[from..from + |p|] != p {
      IndexFromSpec(s, p, from + 1);
    }
  }

  /** `s.indexOf(p)`. */
  function IndexOf(s: string, p: string): (r: Option<nat>)
    ensures r.Some? ==> r.value + |p| <= |s|
  {
    IndexFrom(s, p, 0)
  }

  /** `indexOf` finds the first occurrence of `p`, and finds one exactly when `p` occurs. */
  lemma IndexOfSpec(s: string, p: string)
    ensures IndexOf(s, p).Some? ==>
              && At(s, p, IndexOf(s, p).value)
              && forall j: nat :: j < IndexOf(s, p).value ==> !At(s, p, j)
    ensures IndexOf(s, p).None? <==> !Occurs(s, p)
  {
    IndexFromSpec(s, p, 0);
  }

  /** The last index where character `c` occurs. */
  function LastIndexOfChar(s: string, c: char): (r: Option<nat>)
    ensures r.Some? ==> r.value < |s| && s[r.value] == c
                        && forall j | r.value < j < |s| :: s[j] != c
    ensures r.None? ==> c !in s
  {
    if |s| == 0 then None
    else if s[|s| - 1] == c then Some(|s| - 1)
    else LastIndexOfChar(s[..|s| - 1], c)
  }

  /** The first index where character `c` occurs. */
  function IndexOfChar(s: string, c: char): (r: Option<nat>)
    ensures r.Some? ==> r.value < |s| && s[r.value] == c
                        && forall j | 0 <= j < r.value :: s[j] != c
    ensures r.None? ==> c !in s
  {
    if |s| == 0 then None
    else if s[0] == c then Some(0)
    else match IndexOfChar(s[1..], c)
      case None => None
      case Some(k) => Some(k + 1)
  }

  // ---------------------------------------------------------------------
  // Replacement.

  /**
   * The replacement text that `String.prototype.replace` inserts for a
   * string (not regular-expression) pattern: `$$` is `$`, `$&` the matched
   * text, `` $` `` the text before the match and `$'` the text after it;
   * every other `$` stands for itself (a string pattern has no capture
   * groups, so `$1` and `$<` are not special).
   */
  function Expand(rep: string, before: string, matched: string, after: string): string
  {
    if |rep| == 0 then ""
    else if rep[0] == '$' && |rep| >= 2 && rep[1] == '$' then "$" + Expand(rep[2..], before, matched, after)
    else if rep[0] == '$' && |rep| >= 2 && rep[1] == '&' then matched + Expand(rep[2..], before, matched, after)
    else if rep[0] == '$' && |rep| >= 2 && rep[1] == '`' then before + Expand(rep[2..], before, matched, after)
    else if rep[0] == '$' && |rep| >= 2 && rep[1] == '\'' then after + Expand(rep[2..], before, matched, after)
    else [rep[0]] + Expand(rep[1..], before, matched, after)
  }

  /** Without a `$`, the replacement text is inserted as it is. */
  lemma {:induction false} ExpandPlain(rep: string, before: string, matched: string, after: string)
    requires '$' !in rep
    ensures Expand(rep, before, matched, after) == rep
  {
    if |rep| > 0 {
      assert '$' !in rep[1..];
      ExpandPlain(rep[1..], before, matched, after);
    }
  }

  /**
   * `s.replace(p, rep)` with a string pattern: only the FIRST occurrence of
   * `p` is replaced, by `rep` with its `$` patterns expanded.
   */
  function ReplaceFirst(s: string, p: string, rep: string): string
  {
    match IndexOf(s, p)
    case None => s
    case Some(i) => s[..i] + Expand(rep, s[..i], p, s[i + |p|..]) + s[i + |p|..]
  }

  /** `s` with the `n` characters at index `i` replaced by `e`. */
  function Splice(s: string, i: nat, n: nat, e: string): (r: string)
    requires i + n <= |s|
    ensures |r| == |s| - n + |e|
  {
    s[..i] + e + s[i + n..]
  }

  /**
   * When `p` occurs in `x`, replacing its first occurrence in `x + y` only
   * changes `x`: `y` stays, as a suffix (the `$'` pattern may copy it).
   */
  lemma ReplaceFirstInPrefix(x: string, y: string, p: string, rep: string)
    requires Occurs(x, p)
    ensures IndexOf(x, p).Some? && At(x, p, IndexOf(x, p).value)
    ensures var i := IndexOf(x, p).value;
            ReplaceFirst(x + y, p, rep)
            == Splice(x, i, |p|, Expand(rep, x[..i], p, x[i + |p|..] + y)) + y
  {
    IndexOfInPrefix(x, y, p);
    IndexOfSpec(x, p);
    var i := IndexOf(x, p).value;
    SplitInPrefix(x, y, i, |p|);
    var a, c := x[..i], x[i + |p|..];
    var e := Expand(rep, a, p, c + y);
    assert ReplaceFirst(x + y, p, rep) == a + e + (c + y);
    assert a + e + (c + y) == (a + e + c) + y;
  }

  lemma SplitInPrefix(x: string, y: string, i: nat, n: nat)
    requires i + n <= |x|
    ensures (x + y)[..i] == x[..i] && (x + y)[i + n..] == x[i + n..] + y
  {
  }

  lemma AtInPrefix(x: string, y: string, p: string, j: nat)
    requires j + |p| <= |x|
    ensures At(x + y, p, j) <==> At(x, p, j)
  {
    assert (x + y)[j..j + |p|] == x[j..j + |p|];
  }

  /** The first occurrence in `x + y` of a string that occurs in `x` lies in `x`. */
  lemma IndexOfInPrefix(x: string, y: string, p: string)
    requires Occurs(x, p)
    ensures IndexOf(x + y, p) == IndexOf(x, p) && IndexOf(x, p).Some?
  {
    IndexOfSpec(x, p);
    IndexOfSpec(x + y, p);
    var i := IndexOf(x, p).value;
    AtInPrefix(x, y, p, i);
    var i' := IndexOf(x + y, p).value;
    if i' < i {
      AtInPrefix(x, y, p, i');
    }
  }

  /**
   * A placeholder: `{` first, `}` last, and no brace in between.  Two
   * different placeholders can never overlap in a string.
   */
  predicate Placeholder(p: string)
  {
    && |p| >= 2 && p[0] == '{' && p[|p| - 1] == '}'
    && forall k | 0 < k < |p| - 1 :: p[k] != '{' && p[k] != '}'
  }

  lemma PlaceholdersDoNotOverlap(s: string, p: string, i: nat, q: string, j: nat)
    requires Placeholder(p) && Placeholder(q) && p != q
    requires At(s, p, i) && At(s, q, j)
    ensures i + |p| <= j || j + |q| <= i
  {
    assert s[i] == p[0] && s[j] == q[0];
    assert s[i + |p| - 1] == p[|p| - 1] && s[j + |q| - 1] == q[|q| - 1];
  }

  /**
   * Splicing over an occurrence of one placeholder keeps every occurrence
   * of another placeholder (possibly shifted).
   */
  lemma SpliceKeepsOther(s: string, p: string, i: nat, e: string, q: string)
    requires Placeholder(p) && Placeholder(q) && p != q
    requires At(s, p, i) && Occurs(s, q)
    ensures Occurs(Splice(s, i, |p|, e), q)
  {
    var m: nat :| m <= |s| && At(s, q, m);
    PlaceholdersDoNotOverlap(s, p, i, q, m);
    var r := Splice(s, i, |p|, e);
    if m + |q| <= i {
      assert r[m..m + |q|] == s[m..m + |q|];
      assert At(r, q, m);
    } else {
      var m' := m - |p| + |e|;
      var tail := s[i + |p|..];
      assert r[i + |e|..] == tail;
      assert tail[m - i - |p|..m - i - |p| + |q|] == s[m..m + |q|];
      assert r[m'..m' + |q|] == s[m..m + |q|];
      assert At(r, q, m');
    }
  }

  /** Replacing the first occurrence of one placeholder keeps an occurrence of another. */
  lemma ReplaceFirstKeepsPlaceholder(s: string, p: string, v: string, q: string)
    requires Placeholder(p) && Placeholder(q) && p != q && Occurs(s, q)
    ensures Occurs(ReplaceFirst(s, p, v), q)
  {
    IndexOfSpec(s, p);
    match IndexOf(s, p)
    case None =>
    case Some(i) =>
      SpliceKeepsOther(s, p, i, Expand(v, s[..i], p, s[i + |p|..]), q);
  }

  lemma OccursInMiddle(x: string, p: string, y: string)
    ensures Occurs(x + p + y, p)
  {
    assert (x + p + y)[|x|..|x| + |p|] == p;
    assert At(x + p + y, p, |x|);
  }

  lemma OccursInLonger(x: string, p: string, y: string, z: string)
    requires Occurs(y, p)
    ensures Occurs(x + y + z, p)
  {
    var i: nat :| i <= |y| && At(y, p, i);
    assert (x + y + z)[|x| + i..|x| + i + |p|] == y[i..i + |p|];
    assert At(x + y + z, p, |x| + i);
  }

  /** What occurs in a suffix occurs in the whole. */
  lemma OccursInSuffix(r: string, t: string, p: string)
    requires |t| <= |r| && r[|r| - |t|..] == t && Occurs(t, p)
    ensures Occurs(r, p)
  {
    var i: nat :| i <= |t| && At(t, p, i);
    var j := |r| - |t| + i;
    var s := r[|r| - |t|..];
    assert s[i..i + |p|] == r[j..j + |p|];
    assert r[j..j + |p|] == t[i..i + |p|];
    assert At(r, p, j);
  }

  /** `s.replace(/c/g, d)` for a single character `c`: every `c` becomes `d`. */
  function ReplaceAllChar(s: string, c: char, d: string): (r: string)
    ensures c !in d ==> c !in r
    ensures c !in s ==> r == s
  {
    if |s| == 0 then ""
    else (if s[0] == c then d else [s[0]]) + ReplaceAllChar(s[1..], c, d)
  }

  lemma {:induction false} ReplaceAllCharAppend(a: string, b: string, c: char, d: string)
    ensures ReplaceAllChar(a + b, c, d) == ReplaceAllChar(a, c, d) + ReplaceAllChar(b, c, d)
  {
    if |a| > 0 {
      var h := if a[0] == c then d else [a[0]];
      assert (a + b)[0] == a[0] && (a + b)[1..] == a[1..] + b;
      assert ReplaceAllChar(a + b, c, d) == h + ReplaceAllChar(a[1..] + b, c, d);
      ReplaceAllCharAppend(a[1..], b, c, d);
    } else {
      assert a + b == b;
    }
  }

  /** Replacing a character by a single character keeps the length and every other position. */
  lemma {:induction false} ReplaceAllCharByChar(s: string, c: char, d: char)
    ensures |ReplaceAllChar(s, c, [d])| == |s|
    ensures forall i | 0 <= i < |s| :: ReplaceAllChar(s, c, [d])[i] == if s[i] == c then d else s[i]
  {
    if |s| > 0 {
      ReplaceAllCharByChar(s[1..], c, d);
      var r := ReplaceAllChar(s, c, [d]);
      assert r == [if s[0] == c then d else s[0]] + ReplaceAllChar(s[1..], c, [d]);
      forall i | 0 <= i < |s| ensures r[i] == if s[i] == c then d else s[i] {
        if i > 0 {
          assert s[i] == s[1..][i - 1];
        }
      }
    }
  }

  // ---------------------------------------------------------------------
  // Slicing and joining.

  /** `s.substring(0, n)`: the first `n` characters, or all of `s`. */
  function Prefix(s: string, n: nat): (r: string)
    ensures |r| == if |s| < n then |s| else n
    ensures r == s[..|r|]
  {
    if |s| <= n then s else s[..n]
  }

  /** `parts.join(sep)`. */
  function Join(parts: seq<string>, sep: string): (r: string)
    ensures |parts| == 1 ==> r == parts[0]
  {
    if |parts| == 0 then ""
    else if |parts| == 1 then parts[0]
    else parts[0] + sep + Join(parts[1..], sep)
  }

  /** Every part shows up in the joined text. */
  lemma {:induction false} JoinContainsAll(parts: seq<string>, sep: string)
    ensures forall k | 0 <= k < |parts| :: Occurs(Join(parts, sep), parts[k])
  {
    if |parts| == 1 {
      OccursInMiddle("", parts[0], "");
      assert Join(parts, sep) == "" + parts[0] + "";
    } else if |parts| > 1 {
      JoinContainsAll(parts[1..], sep);
      var rest := Join(parts[1..], sep);
      forall k | 0 <= k < |parts| ensures Occurs(Join(parts, sep), parts[k]) {
        if k == 0 {
          OccursInMiddle("", parts[0], sep + rest);
          assert Join(parts, sep) == "" + parts[0] + (sep + rest);
        } else {
          assert parts[k] == parts[1..][k - 1];
          OccursInLonger(parts[0] + sep, parts[k], rest, "");
          assert Join(parts, sep) == (parts[0] + sep) + rest + "";
        }
      }
    }
  }

  /** `"ab".repeat(n)`. */
  function Repeat(s: string, n: nat): string
  {
    if n == 0 then "" else Repeat(s, n - 1) + s
  }

  lemma {:induction false} RepeatLength(s: string, n: nat)
    ensures |Repeat(s, n)| == |s| * n
  {
    if n > 0 {
      RepeatLength(s, n - 1);
    }
  }

  // ---------------------------------------------------------------------
  // Numbers to text.

  function DigitChar(d: nat): char
    requires d < 10
  {
    "0123456789"[d]
  }

  function DigitValue(c: char): nat
  {
    if '0' <= c <= '9' then (c as int - '0' as int) as nat else 0
  }

  predicate IsDigit(c: char)
  {
    '0' <= c <= '9'
  }

  /** The decimal digits of `n` without leading zeros. */
  function NatToString(n: nat): (r: string)
    ensures |r| >= 1 && forall k | 0 <= k < |r| :: IsDigit(r[k])
    ensures n < 10 <==> |r| == 1
    ensures n < 100 ==> |r| <= 2
    ensures 100 <= n ==> |r| >= 3
  {
    if n < 10 then [DigitChar(n)] else NatToString(n / 10) + [DigitChar(n % 10)]
  }

  /** The value of a string of decimal digits. */
  function DigitsValue(s: string): nat
  {
    if |s| == 0 then 0 else DigitsValue(s[..|s| - 1]) * 10 + DigitValue(s[|s| - 1])
  }

  lemma {:induction false} NatToStringValue(n: nat)
    ensures DigitsValue(NatToString(n)) == n
  {
    if n >= 10 {
      NatToStringValue(n / 10);
      var s := NatToString(n);
      assert s[..|s| - 1] == NatToString(n / 10);
    }
  }

  /** `n.toString()` for an integral number. */
  function IntToString(n: int): string
  {
    if n < 0 then "-" + NatToString(-n) else NatToString(n)
  }

  /** The fractional digits of `f` (0 < f < 1), at most `fuel + 1` of them. */
  function FractionDigits(f: real, fuel: nat): string
    requires 0.0 < f < 1.0
    decreases fuel
  {
    var t := f * 10.0;
    var d := t.Floor;
    var rest := t - d as real;
    [DigitChar(d as nat)] + if rest == 0.0 || fuel == 0 then "" else FractionDigits(rest, fuel - 1)
  }

  /**
   * `x.toString()` with numbers taken as exact reals: an integral value
   * prints as an integer; otherwise the integer part, a point and the
   * decimal expansion of the fraction (cut after 20 digits).
   */
  function NumberToString(x: real): string
    decreases if x < 0.0 then 1 else 0
  {
    if x < 0.0 then "-" + NumberToString(-x)
    else if x == x.Floor as real then NatToString(x.Floor)
    else NatToString(x.Floor) + "." + FractionDigits(x - x.Floor as real, 19)
  }

  /**
   * `x.toFixed(1)`: the integer `n` closest to `10 * |x|` (the larger one on
   * a tie), written with one digit after the point; a negative `x` gets a
   * leading minus sign.
   */
  function ToFixed1(x: real): (r: string)
    ensures |r| >= 3
    decreases if x < 0.0 then 1 else 0
  {
    if x < 0.0 then "-" + ToFixed1(-x)
    else
      var n := (x * 10.0 + 0.5).Floor;
      NatToString(n / 10) + "." + [DigitChar(n % 10)]
  }

  lemma DigitCharValue(d: nat)
    requires d < 10
    ensures IsDigit(DigitChar(d)) && DigitValue(DigitChar(d)) == d
  {
    assert "0123456789"[d] == ('0' as int + d) as char;
  }

  /**
   * `toFixed(1)` writes the sign exactly for a negative number, then the
   * integer `n` closest to `10 * |x|` (the larger one on a tie) as its
   * decimal digits with a point before the last one.
   */
  lemma ToFixed1Spec(x: real)
    ensures var r := ToFixed1(x);
      var a := if x < 0.0 then -x else x;
      var n := (a * 10.0 + 0.5).Floor;
      var body := if x < 0.0 then r[1..] else r;
      && (r[0] == '-' <==> x < 0.0)
      && |body| >= 3 && body[|body| - 2] == '.'
      && DigitsValue(body[..|body| - 2]) * 10 + DigitValue(body[|body| - 1]) == n
      && -0.5 < n as real - a * 10.0 <= 0.5
  {
    var a := if x < 0.0 then -x else x;
    ToFixed1Unsigned(a);
    if x < 0.0 {
      assert ToFixed1(x) == "-" + ToFixed1(a);
      assert ToFixed1(x)[1..] == ToFixed1(a);
    }
  }

  lemma ToFixed1Unsigned(a: real)
    requires a >= 0.0
    ensures var r := ToFixed1(a);
      var n := (a * 10.0 + 0.5).Floor;
      && r[0] != '-'
      && r[|r| - 2] == '.'
      && DigitsValue(r[..|r| - 2]) * 10 + DigitValue(r[|r| - 1]) == n
      && -0.5 < n as real - a * 10.0 <= 0.5
  {
    var n := (a * 10.0 + 0.5).Floor;
    assert n >= 0;
    var m := NatToString(n / 10);
    var r := ToFixed1(a);
    assert r == m + "." + [DigitChar(n % 10)];
    assert r[..|r| - 2] == m;
    assert IsDigit(m[0]);
    NatToStringValue(n / 10);
    DigitCharValue(n % 10);
  }

  /** `s.padStart(2, '0')`. */
  function PadStart2(s: string): (r: string)
    ensures |r| == if |s| < 2 then 2 else |s|
  {
    if |s| == 0 then "00" else if |s| == 1 then "0" + s else s
  }

  // ---------------------------------------------------------------------
  // Text to integers.

  /** The longest prefix of `s` made of decimal digits. */
  function LeadingDigits(s: string): (r: string)
    ensures |r| <= |s| && r == s[..|r|]
    ensures forall k | 0 <= k < |r| :: IsDigit(r[k])
    ensures |r| == |s| || !IsDigit(s[|r|])
  {
    if |s| > 0 && IsDigit(s[0]) then [s[0]] + LeadingDigits(s[1..]) else ""
  }

  predicate IsHexDigit(c: char)
  {
    IsDigit(c) || ('a' <= c <= 'f') || ('A' <= c <= 'F')
  }

  function HexDigitValue(c: char): nat
  {
    if 'a' <= c <= 'f' then (c as int - 'a' as int + 10) as nat
    else if 'A' <= c <= 'F' then (c as int - 'A' as int + 10) as nat
    else DigitValue(c)
  }

  /** The longest prefix of `s` made of hexadecimal digits. */
  function LeadingHexDigits(s: string): (r: string)
    ensures |r| <= |s| && r == s[..|r|]
    ensures forall k | 0 <= k < |r| :: IsHexDigit(r[k])
    ensures |r| == |s| || !IsHexDigit(s[|r|])
  {
    if |s| > 0 && IsHexDigit(s[0]) then [s[0]] + LeadingHexDigits(s[1..]) else ""
  }

  /** The value of a string of hexadecimal digits. */
  function HexValue(s: string): nat
  {
    if |s| == 0 then 0 else HexValue(s[..|s| - 1]) * 16 + HexDigitValue(s[|s| - 1])
  }

  /** `0x` or `0X`: with no radix given, `parseInt` then reads base 16. */
  predicate HexPrefix(u: string)
  {
    |u| >= 2 && u[0] == '0' && (u[1] == 'x' || u[1] == 'X')
  }

  /** What `parseInt` reads after the whitespace and the sign. */
  function Unsigned(s: string): string
  {
    var t := TrimStart(s);
    if |t| > 0 && (t[0] == '+' || t[0] == '-') then t[1..] else t
  }

  /**
   * `parseInt(s)` with no radix: leading whitespace is skipped, then an
   * optional sign; after a `0x`/`0X` prefix the longest run of hexadecimal
   * digits is read, otherwise the longest run of decimal digits; `None`
   * stands for NaN (an empty run).
   */
  function ParseInt(s: string): (r: Option<int>)
    ensures var u := Unsigned(s);
      r.None? <==> if HexPrefix(u) then |u| == 2 || !IsHexDigit(u[2]) else u == [] || !IsDigit(u[0])
    ensures var t := TrimStart(s);
      r.Some? && r.value < 0 ==> |t| > 0 && t[0] == '-'
  {
    var t := TrimStart(s);
    var negative := |t| > 0 && t[0] == '-';
    var u := Unsigned(s);
    var digits := if HexPrefix(u) then LeadingHexDigits(u[2..]) else LeadingDigits(u);
    var v: int := if HexPrefix(u) then HexValue(digits) else DigitsValue(digits);
    if digits == [] then None
    else if negative then Some(-v)
    else Some(v)
  }

  /** `parseInt` reads a `0x` number in base 16 and rejects a bare `0x`. */
  lemma ParseIntHex()
    ensures ParseInt("0x1A") == Some(26)
    ensures ParseInt("0x") == None
    ensures ParseInt("-0x10") == Some(-16)
  {
    ParseIntHex1A();
    ParseIntMinusHex10();
    ParseIntBareHex();
  }

  lemma ParseIntHex1A()
    ensures ParseInt("0x1A") == Some(26)
  {
    var s := "0x1A";
    assert s == "0x" + "1A";
    assert HexDigitValue('1') == 1 && HexDigitValue('A') == 10;
    ParseIntHexDigits(s, "1A", 1, 10);
  }

  lemma ParseIntMinusHex10()
    ensures ParseInt("-0x10") == Some(-16)
  {
    var s := "-0x10";
    assert s == "-0x" + "10";
    assert HexDigitValue('1') == 1 && HexDigitValue('0') == 0;
    ParseIntHexDigits(s, "10", 1, 0);
  }

  lemma ParseIntBareHex()
    ensures ParseInt("0x") == None
  {
    assert TrimStart("0x") == "0x";
    assert Unsigned("0x") == "0x";
    assert HexPrefix("0x");
  }

  /** A two-digit hexadecimal number after `0x`, with or without a '-'. */
  lemma ParseIntHexDigits(s: string, digits: string, hi: nat, lo: nat)
    requires |digits| == 2 && IsHexDigit(digits[0]) && IsHexDigit(digits[1])
    requires HexDigitValue(digits[0]) == hi && HexDigitValue(digits[1]) == lo
    requires s == "0x" + digits || s == "-0x" + digits
    ensures ParseInt(s) == Some(if s[0] == '-' then -(hi * 16 + lo) else hi * 16 + lo)
  {
    assert !IsWhitespace(s[0]);
    assert TrimStart(s) == s;
    var u := Unsigned(s);
    assert u == "0x" + digits by {
      if s[0] == '-' {
        assert s[1..] == "0x" + digits;
      }
    }
    assert HexPrefix(u);
    assert u[2..] == digits;
    assert LeadingHexDigits(digits[1..]) == digits[1..] by {
      assert LeadingHexDigits(digits[1..][1..]) == "";
    }
    assert LeadingHexDigits(digits) == digits;
    assert digits[..1] == [digits[0]];
    assert HexValue(digits[..1]) == hi;
  }

  /**
   * `parseInt` stops at the first character that is not a digit: `"12abc"`
   * is 12 (but `"0x1"` is read in base 16).
   */
  lemma ParseIntStopsAtNonDigit(n: nat, rest: string)
    requires rest == [] || (!IsDigit(rest[0]) && rest[0] != 'x' && rest[0] != 'X')
    ensures ParseInt(NatToString(n) + rest) == Some(n)
  {
    var d := NatToString(n);
    var s := d + rest;
    assert s[0] == d[0] && IsDigit(s[0]) && !IsWhitespace(s[0]);
    assert TrimStart(s) == s;
    assert Unsigned(s) == s;
    assert !HexPrefix(s) by {
      if |d| >= 2 {
        assert s[1] == d[1];
      } else if |s| >= 2 {
        assert s[1] == rest[0];
      }
    }
    LeadingDigitsOfDigitsThen(d, rest);
    NatToStringValue(n);
  }

  lemma {:induction false} LeadingDigitsOfDigitsThen(d: string, rest: string)
    requires forall k | 0 <= k < |d| :: IsDigit(d[k])
    requires rest == [] || !IsDigit(rest[0])
    ensures LeadingDigits(d + rest) == d
  {
    if |d| > 0 {
      assert (d + rest)[1..] == d[1..] + rest;
      LeadingDigitsOfDigitsThen(d[1..], rest);
    } else {
      assert d + rest == rest;
    }
  }

  /** `parseInt` reads back what `toString` writes for a whole number. */
  lemma ParseIntOfNatToString(n: nat)
    ensures ParseInt(NatToString(n)) == Some(n)
  {
    ParseIntStopsAtNonDigit(n, "");
    assert NatToString(n) + "" == NatToString(n);
  }
}
