/**
 * What the human-JSON preprocessor does to each character of a text (src/human_json.rs), told
 * without its buffer, its loops or its output.
 */
module HumanJson {

  // Before a character: in code, in a string, in a comment, or on the second character of a comment mark.
  datatype Mode = Code | Quoted(escaped: bool) | Line | Block | OpenLine | OpenBlock | CloseBlock

  predicate IsNewline(c: char) { c == '\n' || c == '\r' }

  /** A tab is not among them. */
  predicate IsSpace(c: char) { c == ' ' || IsNewline(c) }

  predicate IsCloser(c: char) { c == '}' || c == ']' }

  /** A comment starts here; the last character never starts one. */
  predicate StartsComment(s: string, k: nat) {
    k + 1 < |s| && (s[k] == '#' || (s[k] == '/' && (s[k + 1] == '/' || s[k + 1] == '*')))
  }

  function Advance(m: Mode, s: string, k: nat): Mode
    requires k < |s|
  {
    match m
    case Code =>
      if StartsComment(s, k) then if s[k] == '#' then Line else if s[k + 1] == '/' then OpenLine else OpenBlock
      else if s[k] == '"' then Quoted(false) else Code
    case Quoted(escaped) => if escaped then Quoted(false) else if s[k] == '"' then Code else Quoted(s[k] == '\\')
    case OpenLine => Line
    case Line => if IsNewline(s[k]) then Code else Line
    case OpenBlock => Block
    case Block => if k + 1 < |s| && s[k] == '*' && s[k + 1] == '/' then CloseBlock else Block
    case CloseBlock => Code
  }

  function ModeAt(s: string, k: nat): Mode
    requires k <= |s|
  {
    if k == 0 then Code else Advance(ModeAt(s, k - 1), s, k - 1)
  }

  /** Code; the last character of a text that ends inside a block comment counts as code as well. */
  predicate IsCode(s: string, k: nat)
    requires k < |s|
  {
    (ModeAt(s, k).Code? && !StartsComment(s, k)) || (ModeAt(s, k).Block? && k + 1 == |s|)
  }

  predicate IsComment(s: string, k: nat)
    requires k < |s|
  {
    !IsCode(s, k) && !ModeAt(s, k).Quoted?
  }

  /** Passed over in the search for what follows a comma; the last character never is. */
  predicate Skippable(s: string, k: nat)
    requires k < |s|
  {
    IsComment(s, k) || (IsCode(s, k) && IsSpace(s[k]) && k + 1 < |s|)
  }

  /** The first position from `k` on that is not passed over. */
  function NextSolid(s: string, k: nat): (j: nat)
    requires k <= |s|
    ensures k <= j <= |s| && (j < |s| ==> !Skippable(s, j)) && forall i :: k <= i < j ==> Skippable(s, i)
    decreases |s| - k
  {
    if k < |s| && Skippable(s, k) then NextSolid(s, k + 1) else k
  }

  predicate IsComma(s: string, k: nat)
    requires k < |s|
  {
    IsCode(s, k) && s[k] == ','
  }

  /** The end or a closing bracket follows. */
  predicate Closes(s: string, k: nat)
    requires k <= |s|
  {
    var j := NextSolid(s, k); j == |s| || IsCloser(s[j])
  }

  /** A comma in code with nothing solid between it and the end or a closing bracket. */
  predicate IsTrailing(s: string, k: nat)
    requires k < |s|
  {
    IsComma(s, k) && Closes(s, k + 1)
  }

  predicate IsBlanked(s: string, k: nat)
    requires k < |s|
  {
    (IsComment(s, k) && !IsNewline(s[k])) || IsTrailing(s, k)
  }

  function Blanked(s: string, k: nat): char
    requires k < |s|
  {
    if IsBlanked(s, k) then ' ' else s[k]
  }

  function Processed(s: string): (t: string)
    ensures |t| == |s|
    ensures forall k :: 0 <= k < |s| ==> t[k] == Blanked(s, k)
  {
    seq(|s|, k requires 0 <= k < |s| => Blanked(s, k))
  }

  /** Lines and columns are kept, strings are verbatim, and all that ever replaces a character is a space. */
  lemma LayoutIsKept(s: string, k: nat)
    requires k < |s|
    ensures |Processed(s)| == |s|
    ensures Processed(s)[k] == s[k] || Processed(s)[k] == ' '
    ensures IsNewline(s[k]) ==> Processed(s)[k] == s[k]
    ensures ModeAt(s, k).Quoted? ==> Processed(s)[k] == s[k]
    ensures IsCode(s, k) && s[k] != ',' ==> Processed(s)[k] == s[k]
  {
  }

  /** Every comment has a first character, which is never a space. */
  lemma {:induction false} CommentHasStart(s: string, k: nat) returns (start: nat)
    requires k < |s| && IsComment(s, k)
    ensures start <= k && IsComment(s, start) && !IsSpace(s[start])
  {
    if ModeAt(s, k).Code? {
      start := k;
    } else {
      start := CommentHasStart(s, k - 1);
    }
  }

  lemma ChangesText(s: string, k: nat)
    requires k < |s| && (IsTrailing(s, k) || IsComment(s, k))
    ensures Processed(s) != s
  {
    var start := k;
    if IsComment(s, k) {
      start := CommentHasStart(s, k);
    }
    assert Processed(s)[start] != s[start];
  }

  /** A text is left as it is exactly when it has no comment and no trailing comma. */
  lemma UnchangedExactly(s: string)
    ensures Processed(s) == s <==> forall k :: 0 <= k < |s| ==> !IsTrailing(s, k) && !IsComment(s, k)
  {
    forall k | 0 <= k < |s| && (IsTrailing(s, k) || IsComment(s, k))
      ensures Processed(s) != s
    {
      ChangesText(s, k);
    }
  }

  // ---- The output --------------------------------------------------------------------------

  /** Nothing new starts a comment once comments and commas are blanked. */
  lemma NoCommentStarts(s: string, k: nat)
    requires k < |s| && (IsCode(s, k) || IsComment(s, k))
    ensures !StartsComment(Processed(s), k)
  {
  }

  /** The output is in code or in a string, and in a string exactly where the text is. */
  lemma {:induction false} OutputModes(s: string, k: nat)
    requires k <= |s|
    ensures ModeAt(s, k).Quoted? ==> ModeAt(Processed(s), k) == ModeAt(s, k)
    ensures !ModeAt(s, k).Quoted? ==> ModeAt(Processed(s), k) == Code || k == |s|
  {
    if k > 0 {
      OutputModes(s, k - 1);
      NoCommentsIn(s, k - 1);
    }
  }

  lemma NoCommentsIn(s: string, k: nat)
    requires k < |s|
    ensures !ModeAt(s, k).Quoted? ==> !StartsComment(Processed(s), k)
  {
    if !ModeAt(s, k).Quoted? {
      NoCommentStarts(s, k);
    }
  }

  /** Comments are gone: every character of the output is code, or in a string as before. */
  lemma OutputHasNoComments(s: string, k: nat)
    requires k < |s|
    ensures IsCode(Processed(s), k) <==> IsCode(s, k) || IsComment(s, k)
    ensures ModeAt(Processed(s), k).Quoted? <==> ModeAt(s, k).Quoted?
  {
    OutputModes(s, k);
    NoCommentsIn(s, k);
  }

  // ---- A second pass -----------------------------------------------------------------------

  /** Two commas in a row, the second before a closing bracket: only the second is blanked. */
  predicate IsDoubled(s: string, k: nat)
    requires k < |s|
  {
    && IsComma(s, k)
    && var j := NextSolid(s, k + 1);
       j < |s| && IsTrailing(s, j) && NextSolid(s, j + 1) < |s|
  }

  lemma SkippedAgain(s: string, k: nat)
    requires k < |s|
    ensures Skippable(Processed(s), k) <==> !ModeAt(s, k).Quoted? && IsSpace(Processed(s)[k]) && k + 1 < |s|
  {
    OutputHasNoComments(s, k);
  }

  lemma {:induction false} SolidIs(s: string, k: nat, j: nat)
    requires k <= j <= |s| && (j < |s| ==> !Skippable(s, j)) && forall i :: k <= i < j ==> Skippable(s, i)
    ensures NextSolid(s, k) == j
    decreases j - k
  {
    if k < j {
      SolidIs(s, k + 1, j);
    }
  }

  lemma SpaceStays(s: string, k: nat)
    requires k < |s| && Skippable(s, k)
    ensures IsSpace(Processed(s)[k]) && !ModeAt(s, k).Quoted?
  {
    assert Processed(s)[k] == Blanked(s, k);
  }

  /** What is passed over in the text is passed over in the output, where a character follows it. */
  lemma SkipsAlike(s: string, k: nat)
    requires k <= |s|
    ensures forall i :: k <= i < NextSolid(s, k) && i + 1 < |s| ==> Skippable(Processed(s), i)
  {
    forall i | k <= i < NextSolid(s, k) && i + 1 < |s|
      ensures Skippable(Processed(s), i)
    {
      SpaceStays(s, i);
      SkippedAgain(s, i);
    }
  }

  /** Before an ordinary character, the search stops where it stopped before. */
  lemma StopsAlike(s: string, k: nat)
    requires k <= |s| && NextSolid(s, k) < |s| && !IsTrailing(s, NextSolid(s, k))
    ensures NextSolid(Processed(s), k) == NextSolid(s, k)
    ensures Processed(s)[NextSolid(s, k)] == s[NextSolid(s, k)]
  {
    var j := NextSolid(s, k);
    SkipsAlike(s, k);
    SkippedAgain(s, j);
    SolidIs(Processed(s), k, j);
  }

  /** Where nothing but comments and spaces is left, the last character stops it. */
  lemma StopsAtLast(s: string, k: nat)
    requires k < |s| && NextSolid(s, k) == |s|
    ensures NextSolid(Processed(s), k) == |s| - 1 && !IsCloser(Processed(s)[|s| - 1])
  {
    SkipsAlike(s, k);
    SkippedAgain(s, |s| - 1);
    assert Skippable(s, |s| - 1);
    SolidIs(Processed(s), k, |s| - 1);
  }

  lemma KeptComma(s: string, k: nat)
    requires k < |s|
    ensures IsComma(Processed(s), k) <==> IsComma(s, k) && !IsTrailing(s, k)
  {
    OutputHasNoComments(s, k);
  }

  lemma {:induction false} NextSolidFrom(s: string, k: nat, j: nat)
    requires k <= j <= |s| && forall i :: k <= i < j ==> Skippable(s, i)
    ensures NextSolid(s, k) == NextSolid(s, j)
    decreases j - k
  {
    if k < j {
      NextSolidFrom(s, k + 1, j);
    }
  }

  /** Past a blanked comma, the second search goes on. */
  lemma GoesOn(s: string, k: nat, j: nat)
    requires k <= |s| && j == NextSolid(s, k) && j + 1 < |s| && IsTrailing(s, j)
    ensures NextSolid(Processed(s), k) == NextSolid(Processed(s), j + 1)
  {
    SkippedAgain(s, j);
    SkipsAlike(s, k);
    NextSolidFrom(Processed(s), k, j + 1);
  }

  lemma StopsAtBlankedEnd(s: string, k: nat, j: nat)
    requires k <= |s| && j == NextSolid(s, k) && j + 1 == |s| && IsTrailing(s, j)
    ensures NextSolid(Processed(s), k) == j && Processed(s)[j] == ' '
  {
    SkippedAgain(s, j);
    SkipsAlike(s, k);
    SolidIs(Processed(s), k, j);
  }

  lemma ClosesPastBlanked(s: string, k: nat, j: nat)
    requires k <= |s| && j == NextSolid(s, k) && j < |s| && IsTrailing(s, j)
    ensures Closes(Processed(s), k) <==> NextSolid(s, j + 1) < |s|
  {
    if j + 1 == |s| {
      StopsAtBlankedEnd(s, k, j);
    } else {
      GoesOn(s, k, j);
      if NextSolid(s, j + 1) == |s| {
        StopsAtLast(s, j + 1);
      } else {
        StopsAlike(s, j + 1);
      }
    }
  }

  /** A comma kept by the first pass is trailing in its output exactly when it is doubled. */
  lemma TrailingAgain(s: string, k: nat)
    requires k < |s| && IsComma(s, k) && !IsTrailing(s, k)
    ensures IsTrailing(Processed(s), k) <==> IsDoubled(s, k)
  {
    KeptComma(s, k);
    var j := NextSolid(s, k + 1);
    assert IsTrailing(Processed(s), k) <==> Closes(Processed(s), k + 1);
    if IsTrailing(s, j) {
      ClosesPastBlanked(s, k + 1, j);
    } else {
      StopsAlike(s, k + 1);
    }
  }

  /** A second pass changes nothing exactly when no kept comma stands right before a blanked one and its bracket. */
  lemma IdempotentExactly(s: string)
    ensures Processed(Processed(s)) == Processed(s)
            <==> forall k :: 0 <= k < |s| ==> IsTrailing(s, k) || !IsDoubled(s, k)
  {
    var t := Processed(s);
    UnchangedExactly(t);
    forall k | 0 <= k < |s|
      ensures !IsComment(t, k) && (IsTrailing(t, k) <==> !IsTrailing(s, k) && IsDoubled(s, k))
    {
      OutputHasNoComments(s, k);
      KeptComma(s, k);
      if IsComma(s, k) && !IsTrailing(s, k) {
        TrailingAgain(s, k);
      }
    }
  }

  lemma NotIdempotent()
    ensures Processed(",,}") == ", }" && Processed(", }") == "  }"
  {
    var s, t := ",,}", ", }";
    assert ModeAt(s, 0) == ModeAt(s, 1) == ModeAt(s, 2) == Code;
    assert ModeAt(t, 0) == ModeAt(t, 1) == ModeAt(t, 2) == Code;
    SolidIs(s, 2, 2);
    SolidIs(s, 1, 1);
    SolidIs(t, 1, 2);
  }
}
