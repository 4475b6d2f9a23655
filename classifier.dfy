/** The pass/fail verdict of one result row (app.py, fms_result). */
module Classifier {
  import opened Text
  import opened Values

  datatype Verdict = Pass | Fail

  /** Column holding the free-text nonconformity status. */
  const StatusKey: string := "부적합여부"
  /** The Korean token for "nonconforming". */
  const FailToken: string := "부적합"

  /** str(row.get(status, '')).strip() */
  function StatusText(r: Row): string {
    Strip(Str(Get(r, StatusKey, Text(""))))
  }

  /** The verdict for an already trimmed status text. */
  function VerdictOf(t: string): Verdict {
    if t == FailToken || Lower(t) == "fail" then Fail else Pass
  }

  /** The verdict for a raw status value. */
  function ClassifyStatus(raw: Value): Verdict {
    VerdictOf(Strip(Str(raw)))
  }

  function Classify(r: Row): Verdict {
    ClassifyStatus(Get(r, StatusKey, Text("")))
  }

  /** "fail" in any mix of upper and lower case, letter by letter. */
  predicate IsFailWord(t: string) {
    |t| == 4 &&
    (t[0] == 'f' || t[0] == 'F') && (t[1] == 'a' || t[1] == 'A') &&
    (t[2] == 'i' || t[2] == 'I') && (t[3] == 'l' || t[3] == 'L')
  }

  /** Lower-casing gives "fail" exactly for the four-letter words IsFailWord accepts. */
  lemma {:induction false} LowerIsFail(t: string)
    ensures Lower(t) == "fail" <==> IsFailWord(t)
  {
    if Lower(t) == "fail" {
      assert |t| == 4;
      assert Lower(t)[0] == 'f' && Lower(t)[1] == 'a';
      assert Lower(t)[2] == 'i' && Lower(t)[3] == 'l';
    }
    if IsFailWord(t) {
      assert Lower(t) == "fail";
    }
  }

  /** A row fails exactly when its trimmed status is the Korean token or
      any casing of "fail"; everything else, including the empty text, passes. */
  lemma {:induction false} VerdictFailIff(t: string)
    ensures VerdictOf(t) == Fail <==> t == FailToken || IsFailWord(t)
  {
    LowerIsFail(t);
  }

  /** The same, for a row: the verdict is read off the trimmed status column. */
  lemma {:induction false} ClassifyFailIff(r: Row)
    ensures Classify(r) == Fail <==> StatusText(r) == FailToken || IsFailWord(StatusText(r))
  {
    VerdictFailIff(StatusText(r));
  }

  /** A row without the status column is counted as passing. */
  lemma {:induction false} MissingStatusPasses(r: Row)
    requires StatusKey !in r.fields
    ensures Classify(r) == Pass
  {
    assert Get(r, StatusKey, Text("")) == Text("");
    assert Strip("") == "";
    assert VerdictOf("") == Pass;
  }

  /** A NULL status reads as the text "None" and is counted as passing. */
  lemma {:induction false} NullStatusPasses(r: Row)
    requires StatusKey in r.fields && r.fields[StatusKey] == Null
    ensures Classify(r) == Pass
  {
    assert Classify(r) == ClassifyStatus(Null);
    StripTrimmed("None");
    assert |FailToken| == 3;
    assert Lower("None")[0] == 'n';
    assert VerdictOf("None") == Pass;
  }

  /** Whitespace around the status never changes the verdict. */
  lemma {:induction false} StatusPaddingIgnored(w1: string, t: string, w2: string)
    requires AllSpace(w1) && AllSpace(w2)
    ensures ClassifyStatus(Text(w1 + t + w2)) == ClassifyStatus(Text(t))
  {
    StripPadded(w1, t, w2);
  }
}
