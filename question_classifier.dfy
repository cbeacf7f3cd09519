/**
  The question classifier of the request pipeline (app.py line 73): a query is
  multiple-choice exactly when `re.search(r'\n1\.', query)` finds a match, that is,
  when the three characters newline, `1`, `.` appear contiguously in it.
*/
module QuestionClassifier {

  /** The literal the pattern `\n1\.` stands for. */
  const Marker: string := "\n1."

  /** The marker starts at position `i` of `q`. */
  predicate MarkerAt(q: string, i: int)
  {
    0 <= i && i + |Marker| <= |q| && q[i..i + |Marker|] == Marker
  }

  /** The regex scan from position `from` on. */
  function FindMarker(q: string, from: nat): (found: bool)
    requires from <= |q|
    ensures found <==> exists i :: from <= i && MarkerAt(q, i)
    decreases |q| - from
  {
    if from + |Marker| > |q| then false
    else if q[from..from + |Marker|] == Marker then assert MarkerAt(q, from); true
    else FindMarker(q, from + 1)
  }

  /** `is_multiple_choice`: the query holds the marker somewhere. */
  function IsMultipleChoice(query: string): (mc: bool)
    ensures mc <==> exists i :: MarkerAt(query, i)
  {
    FindMarker(query, 0)
  }

  /** Text around a multiple-choice query keeps it multiple-choice. */
  lemma {:induction false} ClassificationSurvivesContext(pre: string, q: string, post: string)
    requires IsMultipleChoice(q)
    ensures IsMultipleChoice(pre + q + post)
  {
    var i :| MarkerAt(q, i);
    var s := pre + q + post;
    assert s[|pre| + i..|pre| + i + |Marker|] == q[i..i + |Marker|];
    assert MarkerAt(s, |pre| + i);
  }

  /** The marker is never recognised without a newline, so a query whose
      option list starts on its first line (`1. ...`) is open-ended. */
  lemma {:induction false} NeedsNewline(q: string)
    requires forall k :: 0 <= k < |q| ==> q[k] != '\n'
    ensures !IsMultipleChoice(q)
  {
    forall i
      ensures !MarkerAt(q, i)
    {
      if 0 <= i && i + |Marker| <= |q| {
        assert q[i..i + |Marker|][0] == q[i] != Marker[0];
      }
    }
  }

  /** After a newline, `1` must be followed directly by `.`: an option list
      numbered from `10.`, or lettered `a)`, is not recognised. */
  lemma {:induction false} OnlyOptionOne(q: string)
    requires forall k :: 0 <= k < |q| - 2 && q[k] == '\n' && q[k + 1] == '1' ==> q[k + 2] != '.'
    ensures !IsMultipleChoice(q)
  {
    forall i
      ensures !MarkerAt(q, i)
    {
      if 0 <= i && i + |Marker| <= |q| {
        var w := q[i..i + |Marker|];
        assert w[0] == q[i] && w[1] == q[i + 1] && w[2] == q[i + 2];
      }
    }
  }

  /** The classification is not compositional: the marker may straddle the
      point where two texts are joined. */
  lemma MarkerMayStraddle()
    ensures !IsMultipleChoice("Q\n") && !IsMultipleChoice("1. A")
    ensures IsMultipleChoice("Q\n" + "1. A")
  {
    NeedsNewline("1. A");
    assert MarkerAt("Q\n1. A", 1);
  }

  /** Queries as they arrive: only an option list whose first item is `1.` on
      its own line makes a query multiple-choice. */
  lemma Examples()
    ensures IsMultipleChoice("Вопрос\n1. Да\n2. Нет")
    ensures !IsMultipleChoice("1. Да\n2. Нет")
    ensures !IsMultipleChoice("Вопрос\n10. Да")
    ensures !IsMultipleChoice("Вопрос\na) Да\nb) Нет")
    ensures !IsMultipleChoice("Какой город столица России?\n")
  {
    assert MarkerAt("Вопрос\n1. Да\n2. Нет", 6);
    assert !IsMultipleChoice("1. Да\n2. Нет") by {
      OnlyOptionOne("1. Да\n2. Нет");
    }
    assert !IsMultipleChoice("Вопрос\n10. Да") by {
      OnlyOptionOne("Вопрос\n10. Да");
    }
    assert !IsMultipleChoice("Вопрос\na) Да\nb) Нет") by {
      OnlyOptionOne("Вопрос\na) Да\nb) Нет");
    }
    assert !IsMultipleChoice("Какой город столица России?\n") by {
      OnlyOptionOne("Какой город столица России?\n");
    }
  }
}
