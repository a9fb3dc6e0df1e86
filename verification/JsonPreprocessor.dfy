/** The streaming preprocessor of src/human_json.rs, with its two characters of lookahead. */
module JsonPreprocessors {
  import opened Prelude
  import opened HumanJson

  datatype CommentState = NoComment | SingleLine | MultiLine

  /** The position is in code, or the text is used up. */
  predicate AtToken(s: string, k: nat)
    requires k <= |s|
  {
    k == |s| || ModeAt(s, k) == Code || IsCode(s, k)
  }

  predicate InState(s: string, k: nat, state: CommentState)
    requires k <= |s|
  {
    match state
    case NoComment => AtToken(s, k)
    case SingleLine => k == |s| || ModeAt(s, k) == Line
    case MultiLine => k == |s| || ModeAt(s, k) == Block
  }

  /** From `c` to `d` there is nothing solid; without more to come, `c` itself is solid or the end. */
  ghost predicate Passed(s: string, c: nat, d: nat, more: bool) {
    && c <= d <= |s| && NextSolid(s, c) == NextSolid(s, d)
    && if more then c < d else c == d == NextSolid(s, c) && AtToken(s, c)
  }

  /** The step from `c` to `d` writes `out` and leads to `state`. */
  ghost predicate Writes(s: string, c: nat, d: nat, out: string, state: CommentState) {
    Passed(s, c, d, true) && Processed(s)[c..d] == out && InState(s, d, state)
  }

  lemma OnePassed(s: string, c: nat)
    requires c < |s| && Skippable(s, c)
    ensures Passed(s, c, c + 1, true) && Processed(s)[c..c + 1] == [Blanked(s, c)]
  {
  }

  lemma TwoPassed(s: string, c: nat)
    requires c + 1 < |s| && Skippable(s, c) && Skippable(s, c + 1)
    ensures Passed(s, c, c + 2, true) && Processed(s)[c..c + 2] == [Blanked(s, c), Blanked(s, c + 1)]
  {
  }

  lemma HashOpens(s: string, c: nat)
    requires c + 1 < |s| && ModeAt(s, c) == Code && s[c] == '#'
    ensures Writes(s, c, c + 1, " ", SingleLine)
  {
    OnePassed(s, c);
  }

  lemma SlashesOpen(s: string, c: nat)
    requires c + 1 < |s| && ModeAt(s, c) == Code && s[c] == s[c + 1] == '/'
    ensures Writes(s, c, c + 2, "  ", SingleLine)
  {
    assert ModeAt(s, c + 1) == OpenLine && ModeAt(s, c + 2) == Line;
    TwoPassed(s, c);
  }

  lemma BlockOpens(s: string, c: nat)
    requires c + 1 < |s| && ModeAt(s, c) == Code && s[c] == '/' && s[c + 1] == '*'
    ensures Writes(s, c, c + 2, "  ", MultiLine)
  {
    assert ModeAt(s, c + 1) == OpenBlock && ModeAt(s, c + 2) == Block;
    TwoPassed(s, c);
  }

  lemma SpacePasses(s: string, c: nat)
    requires c + 1 < |s| && ModeAt(s, c) == Code && IsSpace(s[c])
    ensures Writes(s, c, c + 1, [s[c]], NoComment)
  {
    OnePassed(s, c);
  }

  lemma LinePasses(s: string, c: nat)
    requires c < |s| && ModeAt(s, c) == Line
    ensures Writes(s, c, c + 1, [if IsNewline(s[c]) then s[c] else ' '],
                   if IsNewline(s[c]) then NoComment else SingleLine)
  {
    OnePassed(s, c);
  }

  lemma BlockPasses(s: string, c: nat)
    requires c + 1 < |s| && ModeAt(s, c) == Block && !(s[c] == '*' && s[c + 1] == '/')
    ensures Writes(s, c, c + 1, [if IsNewline(s[c]) then s[c] else ' '], MultiLine)
  {
    OnePassed(s, c);
  }

  lemma BlockCloses(s: string, c: nat)
    requires c + 1 < |s| && ModeAt(s, c) == Block && s[c] == '*' && s[c + 1] == '/'
    ensures Writes(s, c, c + 2, "  ", NoComment)
  {
    assert ModeAt(s, c + 1) == CloseBlock && ModeAt(s, c + 2) == Code;
    TwoPassed(s, c);
  }

  class JsonPreprocessor {
    const text: string
    var at: nat
    var peekLen: nat
    const peek: array<char>
    var newString: string
    ghost var consumed: nat

    constructor (text: string)
      ensures Valid() && fresh(peek) && this.text == text && consumed == 0 && newString == ""
    {
      this.text := text;
      at, peekLen, newString, consumed := 0, 0, "", 0;
      peek := new char[2](_ => ' ');
    }

    /** The buffer holds the characters just before the iterator; everything before them has been output. */
    ghost predicate Valid()
      reads this, peek
    {
      && peek.Length == 2 && peekLen <= 2 && consumed + peekLen == at <= |text|
      && (forall i :: 0 <= i < peekLen ==> peek[i] == text[consumed + i])
      && |newString| == consumed
    }

    method Peek(n: nat) returns (chars: Option<string>)
      requires Valid() && 1 <= n <= 2
      modifies `at, `peekLen, peek
      ensures Valid()
      ensures chars == if consumed + n <= |text| then Some(text[consumed..consumed + n]) else None
      ensures chars.Some? ==> peekLen >= n
    {
      while peekLen < n
        invariant Valid()
        decreases 2 - peekLen
      {
        if at == |text| {
          return None;
        }
        peek[peekLen] := text[at];
        peekLen, at := peekLen + 1, at + 1;
      }
      var front := peek[..n];
      assert forall i :: 0 <= i < n ==> front[i] == text[consumed + i];
      assert front == text[consumed..consumed + n];
      chars := Some(front);
    }

    /** `peek_len` is at least `n` when it is decreased: this is only ever called with `n` characters left. */
    method Next(n: nat, insertInstead: Option<string>)
      requires Valid() && 1 <= n <= 2 && consumed + n <= |text|
      requires insertInstead.Some? ==> |insertInstead.value| == n
      modifies this, peek
      ensures Valid() && consumed == old(consumed) + n
      ensures newString == old(newString) + if insertInstead.Some? then insertInstead.value
                                            else text[old(consumed)..old(consumed) + n]
    {
      var result := Peek(n);
      newString := newString + if insertInstead.Some? then insertInstead.value else result.value;
      peekLen, consumed := peekLen - n, consumed + n;
      if n == 1 {
        peek[0] := peek[1];
      }
    }

    /** `validate_empty`, at the start of a comment. */
    method OpenComment(chars: string) returns (state: CommentState)
      requires Valid() && consumed + 1 < |text| && chars == text[consumed..consumed + 2]
      requires ModeAt(text, consumed) == Code && StartsComment(text, consumed)
      modifies this, peek
      ensures Valid() && consumed > old(consumed)
      ensures Writes(text, old(consumed), consumed, newString[old(|newString|)..], state)
      ensures newString == old(newString) + newString[old(|newString|)..]
    {
      if chars[0] == '#' {
        HashOpens(text, consumed);
        state := SingleLine;
        Next(1, Some(" "));
      } else if chars == "//" {
        SlashesOpen(text, consumed);
        state := SingleLine;
        Next(2, Some("  "));
      } else {
        BlockOpens(text, consumed);
        state := MultiLine;
        Next(2, Some("  "));
      }
    }

    /** `validate_empty`, outside a comment. */
    method EmptyOne() returns (more: bool, state: CommentState)
      requires Valid() && InState(text, consumed, NoComment)
      modifies this, peek
      ensures Valid() && Passed(text, old(consumed), consumed, more) && (more ==> InState(text, consumed, state))
      ensures newString == old(newString) + Processed(text)[old(consumed)..consumed]
    {
      state := NoComment;
      var chars := Peek(2);
      if chars.None? {
        return false, state;
      }
      if chars.value[0] == '#' || chars.value == "//" || chars.value == "/*" {
        state := OpenComment(chars.value);
      } else if IsSpace(chars.value[0]) {
        SpacePasses(text, consumed);
        Next(1, None);
      } else {
        return false, state;
      }
      more := true;
    }

    /** `validate_empty`, in a comment up to the end of the line. */
    method LineOne() returns (more: bool, state: CommentState)
      requires Valid() && InState(text, consumed, SingleLine)
      modifies this, peek
      ensures Valid() && Passed(text, old(consumed), consumed, more) && (more ==> InState(text, consumed, state))
      ensures newString == old(newString) + Processed(text)[old(consumed)..consumed]
    {
      state := SingleLine;
      var chars := Peek(1);
      if chars.None? {
        return false, state;
      }
      LinePasses(text, consumed);
      if IsNewline(chars.value[0]) {
        state := NoComment;
        Next(1, None);
      } else {
        Next(1, Some(" "));
      }
      more := true;
    }

    /** `validate_empty`, in a block comment. */
    method BlockOne() returns (more: bool, state: CommentState)
      requires Valid() && InState(text, consumed, MultiLine)
      modifies this, peek
      ensures Valid() && Passed(text, old(consumed), consumed, more) && (more ==> InState(text, consumed, state))
      ensures newString == old(newString) + Processed(text)[old(consumed)..consumed]
    {
      state := MultiLine;
      var chars := Peek(2);
      if chars.None? {
        return false, state;
      }
      if chars.value == "*/" {
        BlockCloses(text, consumed);
        state := NoComment;
        Next(2, Some("  "));
      } else {
        BlockPasses(text, consumed);
        if IsNewline(chars.value[0]) {
          Next(1, None);
        } else {
          Next(1, Some(" "));
        }
      }
      more := true;
    }

    /** Comments are blanked and spaces copied, up to the next solid character. */
    method ValidateEmpty()
      requires Valid() && AtToken(text, consumed)
      modifies this, peek
      ensures Valid() && consumed == NextSolid(text, old(consumed)) && AtToken(text, consumed)
      ensures newString == old(newString) + Processed(text)[old(consumed)..consumed]
    {
      var state := NoComment;
      var more := true;
      ghost var from := consumed;
      while more
        invariant Valid() && from <= consumed && NextSolid(text, consumed) == NextSolid(text, from)
        invariant if more then InState(text, consumed, state)
                  else NextSolid(text, consumed) == consumed && AtToken(text, consumed)
        invariant newString == old(newString) + Processed(text)[from..consumed]
        decreases more, |text| - consumed
      {
        ghost var c := consumed;
        match state {
          case NoComment => more, state := EmptyOne();
          case SingleLine => more, state := LineOne();
          case MultiLine => more, state := BlockOne();
        }
        ProcessedGrows(text, from, c, consumed);
      }
    }

    /** What has been consumed is output as it should be. */
    ghost predicate InStep()
      reads this, peek
    {
      Valid() && newString == Processed(text)[..consumed]
    }

    /** One string, comma or other character, and the comments and spaces before it. */
    method ValidateNext() returns (more: bool)
      requires InStep() && AtToken(text, consumed)
      modifies this, peek
      ensures InStep() && AtToken(text, consumed)
      ensures if more then consumed > old(consumed) else consumed == |text|
    {
      ghost var from := consumed;
      ValidateEmpty();
      ProcessedGrows(text, 0, from, consumed);
      assert newString == Processed(text)[0..consumed];
      var c := Peek(1);
      if c.None? {
        return false;
      }
      match c.value[0] {
        case '"' =>
          QuoteOpens(text, consumed);
          Next(1, None);
          more := CopyString();
        case ',' =>
          more := ValidateComma();
        case _ =>
          OtherPasses(text, consumed);
          Next(1, None);
          more := true;
      }
    }

    /** The rest of a string, with its closing quote. */
    method CopyString() returns (more: bool)
      requires InStep() && InString(text, consumed, false)
      modifies this, peek
      ensures InStep() && AtToken(text, consumed) && consumed >= old(consumed)
      ensures !more ==> consumed == |text|
    {
      var escaped := false;
      while true
        invariant InStep() && consumed >= old(consumed) && InString(text, consumed, escaped)
        decreases |text| - consumed
      {
        var c := Peek(1);
        if c.None? {
          return false;
        }
        QuotedPasses(text, consumed, escaped);
        if !escaped {
          if c.value[0] == '\\' {
            escaped := true;
          }
          if c.value[0] == '"' {
            Next(1, None);
            return true;
          }
        } else {
          escaped := false;
        }
        Next(1, None);
      }
    }

    /** A comma is blanked, and put back once something else than the end or a bracket follows. */
    method ValidateComma() returns (more: bool)
      requires InStep() && consumed < |text| && IsComma(text, consumed)
      modifies this, peek
      ensures InStep() && AtToken(text, consumed)
      ensures if more then consumed > old(consumed) else consumed == |text|
    {
      var maybeComma := |newString|;
      Next(1, Some(" "));
      ValidateEmpty();
      CommaDecided(text, maybeComma, consumed, newString);
      var c := Peek(1);
      if c.None? {
        return false;
      }
      if !IsCloser(c.value[0]) {
        newString := newString[..maybeComma] + "," + newString[maybeComma + 1..];
      }
      more := true;
    }

    method Preprocess() returns (output: string)
      requires Valid() && consumed == 0 && newString == ""
      modifies this, peek
      ensures output == Processed(text)
    {
      var more := true;
      while more
        invariant InStep() && AtToken(text, consumed)
        invariant !more ==> consumed == |text|
        decreases more, |text| - consumed
      {
        more := ValidateNext();
      }
      output := newString;
    }
  }

  predicate InString(s: string, k: nat, escaped: bool)
    requires k <= |s|
  {
    k == |s| || ModeAt(s, k) == Quoted(escaped)
  }

  lemma QuoteOpens(s: string, c: nat)
    requires c < |s| && IsCode(s, c) && s[c] == '"'
    ensures Processed(s)[..c + 1] == Processed(s)[..c] + s[c..c + 1] && InString(s, c + 1, false)
  {
  }

  lemma OtherPasses(s: string, c: nat)
    requires c < |s| && IsCode(s, c) && s[c] != '"' && s[c] != ','
    ensures Processed(s)[..c + 1] == Processed(s)[..c] + s[c..c + 1] && AtToken(s, c + 1)
  {
  }

  lemma QuotedPasses(s: string, c: nat, escaped: bool)
    requires c < |s| && ModeAt(s, c) == Quoted(escaped)
    ensures Processed(s)[..c + 1] == Processed(s)[..c] + s[c..c + 1]
    ensures if !escaped && s[c] == '"' then AtToken(s, c + 1) else InString(s, c + 1, !escaped && s[c] == '\\')
  {
  }

  /** With a space in the place of the comma, the output is right if it is trailing; otherwise the comma is missing. */
  lemma CommaDecided(s: string, k: nat, c: nat, output: string)
    requires k < |s| && IsComma(s, k) && c == NextSolid(s, k + 1)
    requires output == Processed(s)[..k] + " " + Processed(s)[k + 1..c]
    ensures |output| == c
    ensures if c == |s| || IsCloser(s[c]) then output == Processed(s)[..c]
            else output[..k] + "," + output[k + 1..] == Processed(s)[..c]
  {
  }

  lemma ProcessedGrows(s: string, from: nat, c: nat, d: nat)
    requires from <= c <= d <= |s|
    ensures Processed(s)[from..c] + Processed(s)[c..d] == Processed(s)[from..d]
  {
  }
}
