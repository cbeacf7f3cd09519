/**
  The answer extractor of the request pipeline (app.py, `extract_answer`).

  The source runs `re.search(r'(?i)\b(null|10|\d)\b', text)`: the regex engine
  tries every start position from left to right and, at each position, the three
  alternatives in the order written; the first success wins.  A `null` match
  yields no answer, a numeric match yields its integer value, and no match at all
  yields no answer.
*/
module AnswerExtractor {
  import opened Wrappers

  /** Python's `\w` on a `str` pattern: alphanumeric characters and `_`.
      Enumerated here for ASCII, Latin-1 and the Cyrillic block. */
  predicate IsWordChar(c: char)
  {
    || ('a' <= c <= 'z') || ('A' <= c <= 'Z') || ('0' <= c <= '9') || c == '_'
    || c == '\U{00AA}' || c == '\U{00B2}' || c == '\U{00B3}' || c == '\U{00B5}'
    || c == '\U{00B9}' || c == '\U{00BA}' || ('\U{00BC}' <= c <= '\U{00BE}')
    || ('\U{00C0}' <= c <= '\U{00D6}') || ('\U{00D8}' <= c <= '\U{00F6}')
    || ('\U{00F8}' <= c <= '\U{00FF}')
    || ('\U{0400}' <= c <= '\U{0481}') || ('\U{048A}' <= c <= '\U{04FF}')
  }

  /** `\d`, restricted to the ASCII digits. */
  predicate IsDigit(c: char)
  {
    '0' <= c <= '9'
  }

  function DigitValue(c: char): (d: nat)
    requires IsDigit(c)
    ensures d <= 9
  {
    (c as int) - ('0' as int)
  }

  /** Whether position `i` of `s` (0 <= i <= |s|) is a `\b` word boundary:
      exactly one of the characters on either side is a word character. */
  predicate Boundary(s: string, i: int)
    requires 0 <= i <= |s|
  {
    (i > 0 && IsWordChar(s[i - 1])) != (i < |s| && IsWordChar(s[i]))
  }

  /** `null` under `(?i)`: no character other than the ASCII pair folds to
      `n`, `u` or `l`. */
  predicate NullAt(s: string, i: nat)
  {
    && i + 4 <= |s|
    && (s[i] == 'n' || s[i] == 'N')
    && (s[i + 1] == 'u' || s[i + 1] == 'U')
    && (s[i + 2] == 'l' || s[i + 2] == 'L')
    && (s[i + 3] == 'l' || s[i + 3] == 'L')
  }

  /** The token captured by group 1 of the pattern. */
  datatype Token = NullWord | Numeral(value: nat)

  /** The answer a matched token stands for (`None if value.lower() == "null" else int(value)`). */
  function AnswerOf(t: Token): Option<int>
  {
    match t
    case NullWord => None
    case Numeral(v) => Some(v)
  }

  /** Declarative reading of the pattern: token `t` occurs at position `i` of `s`,
      delimited by word boundaries on both sides. */
  predicate Occurs(s: string, i: int, t: Token)
  {
    && 0 <= i <= |s|
    && Boundary(s, i)
    && match t
       case NullWord => NullAt(s, i) && Boundary(s, i + 4)
       case Numeral(v) =>
         if v == 10 then i + 2 <= |s| && s[i] == '1' && s[i + 1] == '0' && Boundary(s, i + 2)
         else i + 1 <= |s| && IsDigit(s[i]) && DigitValue(s[i]) == v && Boundary(s, i + 1)
  }

  /** No token starts before position `i`. */
  ghost predicate NoTokenBefore(s: string, i: int)
  {
    forall j, t :: 0 <= j < i ==> !Occurs(s, j, t)
  }

  /** `t` at `i` is the leftmost token of `s`. */
  ghost predicate Leftmost(s: string, i: int, t: Token)
  {
    Occurs(s, i, t) && NoTokenBefore(s, i)
  }

  /** No token occurs anywhere in `s`. */
  ghost predicate TokenFree(s: string)
  {
    forall i, t :: !Occurs(s, i, t)
  }

  /** One attempt of the regex engine at start position `i`: `\b`, then the
      alternatives `null`, `10`, `\d` in the order written, each followed by `\b`. */
  function MatchAt(s: string, i: nat): (r: Option<Token>)
    requires i <= |s|
    ensures r.Some? ==> Occurs(s, i, r.value)
    ensures r.None? ==> forall t :: !Occurs(s, i, t)
  {
    if !Boundary(s, i) then None
    else if NullAt(s, i) && Boundary(s, i + 4) then Some(NullWord)
    else if i + 2 <= |s| && s[i] == '1' && s[i + 1] == '0' && Boundary(s, i + 2) then Some(Numeral(10))
    else if i + 1 <= |s| && IsDigit(s[i]) && Boundary(s, i + 1) then Some(Numeral(DigitValue(s[i])))
    else None
  }

  /** A successful search: where the match starts and which token it captured. */
  datatype Match = Match(start: nat, token: Token)

  /** `re.search` from position `from` on: the leftmost token at or after `from`. */
  function Search(s: string, from: nat): (r: Option<Match>)
    requires from <= |s|
    ensures r.Some? ==> from <= r.value.start && Occurs(s, r.value.start, r.value.token)
    ensures r.Some? ==> forall j, t :: from <= j < r.value.start ==> !Occurs(s, j, t)
    ensures r.None? ==> forall j, t :: from <= j ==> !Occurs(s, j, t)
    decreases |s| - from
  {
    match MatchAt(s, from)
    case Some(t) => Some(Match(from, t))
    case None => if from == |s| then None else Search(s, from + 1)
  }

  /** `extract_answer`: total on every input, the empty text included. */
  function ExtractAnswer(text: string): (answer: Option<int>)
    ensures answer.Some? ==> 0 <= answer.value <= 10
  {
    match Search(text, 0)
    case None => None
    case Some(m) => AnswerOf(m.token)
  }

  // ---------------------------------------------------------------------------
  // Properties of the extractor
  // ---------------------------------------------------------------------------

  /** At one position at most one alternative can succeed, so the order in
      which the pattern lists them never changes the outcome. */
  lemma OccursUnique(s: string, i: int, t1: Token, t2: Token)
    requires Occurs(s, i, t1) && Occurs(s, i, t2)
    ensures t1 == t2
  {
  }

  /** The answer is decided by the leftmost token: `null` gives no answer,
      a numeral gives its value. */
  lemma LeftmostTokenDecides(s: string, i: int, t: Token)
    requires Leftmost(s, i, t)
    ensures ExtractAnswer(s) == AnswerOf(t)
  {
    var r := Search(s, 0);
    assert r.Some?;
    assert r.value.start == i;
    OccursUnique(s, i, t, r.value.token);
  }

  /** Text without any qualifying token gives no answer. */
  lemma TokenFreeGivesNone(s: string)
    requires TokenFree(s)
    ensures ExtractAnswer(s) == None
  {
  }

  /** Conversely, every answer comes from the leftmost token, which is a
      numeral carrying that value. */
  lemma AnswerIsLeftmostNumeral(s: string)
    requires ExtractAnswer(s).Some?
    ensures exists i :: Leftmost(s, i, Numeral(ExtractAnswer(s).value))
  {
    var m := Search(s, 0).value;
    assert Leftmost(s, m.start, m.token);
  }

  /** A text that is one word (only word characters) answers only when the
      whole word is `10` or a single digit: `100`, `11`, `05`, `2024`, `a3`,
      `_3`, `nullify` and `null` itself give no answer. */
  lemma {:induction false} SingleWord(w: string)
    requires forall k :: 0 <= k < |w| ==> IsWordChar(w[k])
    ensures ExtractAnswer(w) ==
      if w == "10" then Some(10)
      else if |w| == 1 && IsDigit(w[0]) then Some(DigitValue(w[0]))
      else None
  {
    forall j, t | 0 < j
      ensures !Occurs(w, j, t)
    {
      if 0 < j < |w| {
        assert !Boundary(w, j);
      }
    }
    if |w| == 0 {
      assert TokenFree(w);
    } else if w == "10" {
      assert Leftmost(w, 0, Numeral(10));
      LeftmostTokenDecides(w, 0, Numeral(10));
    } else if |w| == 1 && IsDigit(w[0]) {
      assert Leftmost(w, 0, Numeral(DigitValue(w[0])));
      LeftmostTokenDecides(w, 0, Numeral(DigitValue(w[0])));
    } else {
      if Occurs(w, 0, NullWord) {
        LeftmostTokenDecides(w, 0, NullWord);
      } else {
        assert TokenFree(w);
      }
    }
  }

  /** Characters of `a + b` that come from `b`. */
  lemma ShiftedOccurs(a: string, b: string, j: int, t: Token)
    requires |a| == 0 || !IsWordChar(a[|a| - 1])
    requires 0 <= j
    ensures Occurs(a + b, |a| + j, t) <==> Occurs(b, j, t)
  {
    var s := a + b;
    if j <= |b| {
      forall k | 0 <= k <= |b|
        ensures Boundary(s, |a| + k) == Boundary(b, k)
      {
        if k > 0 {
          assert s[|a| + k - 1] == b[k - 1];
        }
        if k < |b| {
          assert s[|a| + k] == b[k];
        }
      }
      if j < |b| {
        assert s[|a| + j] == b[j];
      }
      if j + 1 < |b| {
        assert s[|a| + j + 1] == b[j + 1];
      }
      if j + 3 < |b| {
        assert s[|a| + j + 2] == b[j + 2];
        assert s[|a| + j + 3] == b[j + 3];
      }
    }
  }

  /** A token starting inside `a` lies wholly inside `a`, because `a` ends on a
      non-word character that every token must stop before. */
  lemma PrefixOccurs(a: string, b: string, i: int, t: Token)
    requires |a| == 0 || !IsWordChar(a[|a| - 1])
    requires 0 <= i < |a|
    requires Occurs(a + b, i, t)
    ensures Occurs(a, i, t)
  {
    var s := a + b;
    var n := match t case NullWord => 4 case Numeral(v) => if v == 10 then 2 else 1;
    assert i + n <= |a| by {
      forall k | i <= k < i + n
        ensures IsWordChar(s[k])
      {
      }
    }
    assert s[i] == a[i];
    if i + n < |s| {
      assert i + n < |a| ==> s[i + n] == a[i + n];
    }
    assert s[i + n - 1] == a[i + n - 1];
    if n == 4 {
      assert s[i + 1] == a[i + 1] && s[i + 2] == a[i + 2];
    }
    if i > 0 {
      assert s[i - 1] == a[i - 1];
    }
  }

  /** Model commentary without any token, ending in a separator, is skipped:
      `"Ответ: " + rest` answers exactly as `rest` does. */
  lemma SkipsTokenFreePrefix(a: string, b: string)
    requires TokenFree(a)
    requires |a| == 0 || !IsWordChar(a[|a| - 1])
    ensures ExtractAnswer(a + b) == ExtractAnswer(b)
  {
    var s := a + b;
    assert NoTokenBefore(s, |a|) by {
      forall i, t | 0 <= i < |a|
        ensures !Occurs(s, i, t)
      {
        if Occurs(s, i, t) {
          PrefixOccurs(a, b, i, t);
        }
      }
    }
    match Search(b, 0)
    case None =>
      forall i, t
        ensures !Occurs(s, i, t)
      {
        if i >= |a| {
          ShiftedOccurs(a, b, i - |a|, t);
        }
      }
      assert TokenFree(s);
    case Some(m) =>
      ShiftedOccurs(a, b, m.start, m.token);
      forall i, t | 0 <= i < |a| + m.start
        ensures !Occurs(s, i, t)
      {
        if i >= |a| {
          ShiftedOccurs(a, b, i - |a|, t);
        }
      }
      LeftmostTokenDecides(s, |a| + m.start, m.token);
  }

  /** One-word texts: a digit inside a longer word never counts. */
  lemma OneWordExamples()
    ensures ExtractAnswer("") == None
    ensures ExtractAnswer("100") == None && ExtractAnswer("11") == None
    ensures ExtractAnswer("05") == None && ExtractAnswer("2024") == None
    ensures ExtractAnswer("a3") == None && ExtractAnswer("_3") == None
    ensures ExtractAnswer("nullify") == None && ExtractAnswer("NuLL") == None
    ensures ExtractAnswer("10") == Some(10) && ExtractAnswer("7") == Some(7)
  {
    assert ExtractAnswer("") == None by {
      SingleWord("");
    }
    assert ExtractAnswer("100") == None by {
      SingleWord("100");
    }
    assert ExtractAnswer("11") == None by {
      SingleWord("11");
    }
    assert ExtractAnswer("05") == None by {
      SingleWord("05");
    }
    assert ExtractAnswer("2024") == None by {
      SingleWord("2024");
    }
    assert ExtractAnswer("a3") == None by {
      SingleWord("a3");
    }
    assert ExtractAnswer("_3") == None by {
      SingleWord("_3");
    }
    assert ExtractAnswer("nullify") == None by {
      SingleWord("nullify");
    }
    assert ExtractAnswer("NuLL") == None by {
      SingleWord("NuLL");
    }
    assert ExtractAnswer("10") == Some(10) by {
      SingleWord("10");
    }
    assert ExtractAnswer("7") == Some(7) by {
      SingleWord("7");
    }
  }

  /** A token-free lead-in such as "Ответ: " before the answer is skipped. */
  lemma LabelledExamples()
    ensures ExtractAnswer("Ответ: 3") == Some(3)
    ensures ExtractAnswer("Ответ: null") == None
  {
    var lead := "Ответ: ";
    assert TokenFree(lead) by {
      forall i, t
        ensures !Occurs(lead, i, t)
      {
        if 0 <= i < |lead| {
          assert !IsDigit(lead[i]) && lead[i] != 'n' && lead[i] != 'N';
        }
      }
    }
    SingleWord("3");
    SkipsTokenFreePrefix(lead, "3");
    assert lead + "3" == "Ответ: 3";
    SingleWord("null");
    SkipsTokenFreePrefix(lead, "null");
    assert lead + "null" == "Ответ: null";
  }
}
