/**
 * Human JSON as its readers write it, piece by piece: plain characters, quoted strings and notes. Every
 * text is written in pieces, and what the preprocessor makes of it can be told from them alone.
 */
module HumanJsonPieces {
  import opened Prelude
  import opened HumanJson

  datatype Letter = Ordinary(c: char) | Escape(c: char)

  /** A note runs from its mark to the end of the line. The torn ones are cut off by the end of the text. */
  datatype Piece =
    | Plain(c: char)
    | Quote(body: seq<Letter>)
    | Note(mark: string, text: string, end: string)
    | Remark(text: string)
    | TornQuote(body: seq<Letter>, end: string)
    | TornRemark(text: string)

  function Spelled(body: seq<Letter>): string {
    if body == [] then ""
    else (match body[0] case Ordinary(c) => [c] case Escape(c) => ['\\', c]) + Spelled(body[1..])
  }

  function Written(p: Piece): string {
    match p
    case Plain(c) => [c]
    case Quote(body) => ['"'] + Spelled(body) + ['"']
    case Note(mark, text, end) => mark + text + end
    case Remark(text) => "/*" + text + "*/"
    case TornQuote(body, end) => ['"'] + Spelled(body) + end
    case TornRemark(text) => "/*" + text
  }

  function Text(ps: seq<Piece>): string {
    if ps == [] then "" else Written(ps[0]) + Text(ps[1..])
  }

  predicate Letters(body: seq<Letter>) {
    forall i :: 0 <= i < |body| && body[i].Ordinary? ==> body[i].c != '"' && body[i].c != '\\'
  }

  predicate OneLine(text: string) {
    forall i :: 0 <= i < |text| ==> text[i] != '\n' && text[i] != '\r'
  }

  predicate Unclosed(text: string) {
    forall i :: 0 <= i < |text| - 1 ==> !(text[i] == '*' && text[i + 1] == '/')
  }

  /** The piece can stand before `rest`. A mark at the very end of the text is a plain character. */
  predicate Fits(p: Piece, rest: string) {
    match p
    case Plain(c) =>
      c != '"' && (c == '#' ==> rest == "") && (c == '/' ==> rest == "" || (rest[0] != '/' && rest[0] != '*'))
    case Quote(body) => Letters(body)
    case Note(mark, text, end) =>
      && (mark == "#" || mark == "//") && OneLine(text)
      && (end == "\n" || end == "\r" || (end == "" && rest == "" && mark + text != "#"))
    case Remark(text) => Unclosed(text)
    case TornQuote(body, end) => Letters(body) && (end == "" || end == "\\") && rest == ""
    case TornRemark(text) => Unclosed(text) && rest == ""
  }

  predicate Fine(ps: seq<Piece>) {
    ps == [] || (Fits(ps[0], Text(ps[1..])) && Fine(ps[1..]))
  }

  // ---- What becomes of the pieces ----------------------------------------------------------

  /** Spaces for everything but line ends. */
  function Erased(s: string): (t: string)
    ensures |t| == |s|
  {
    seq(|s|, i requires 0 <= i < |s| => if s[i] == '\n' || s[i] == '\r' then s[i] else ' ')
  }

  /**
   * Only notes and blanks stand before a closing bracket or the end. The last character of a text
   * counts even if it is a blank or in a remark that is cut off.
   */
  predicate Closing(ps: seq<Piece>) {
    ps == []
    || match ps[0]
       case Plain(c) =>
         if (c == ' ' || c == '\n' || c == '\r') && |ps| > 1 then Closing(ps[1..]) else c == '}' || c == ']'
       case Note(_, _, _) => Closing(ps[1..])
       case Remark(_) => Closing(ps[1..])
       case TornRemark(text) => text == "" || Last(text) == '}' || Last(text) == ']'
       case _ => false
  }

  /** Notes are erased, a comma is where nothing but its bracket follows; everything else is kept. */
  function CleanedPiece(p: Piece, rest: seq<Piece>): string {
    match p
    case Plain(c) => if c == ',' && Closing(rest) then " " else [c]
    case Note(_, _, _) => Erased(Written(p))
    case Remark(_) => Erased(Written(p))
    case TornRemark(text) =>
      if text == "" then "  " else Erased("/*" + Front(text)) + [if Last(text) == ',' then ' ' else Last(text)]
    case _ => Written(p)
  }

  function Cleaned(ps: seq<Piece>): string {
    if ps == [] then "" else CleanedPiece(ps[0], ps[1..]) + Cleaned(ps[1..])
  }

  // ---- The modes inside a piece ------------------------------------------------------------

  /** `w` stands in `s` at `k`. */
  predicate Stands(s: string, k: nat, w: string) {
    k + |w| <= |s| && s[k..k + |w|] == w
  }

  lemma PartsStand(s: string, k: nat, a: string, b: string)
    requires Stands(s, k, a + b)
    ensures Stands(s, k, a) && Stands(s, k + |a|, b)
  {
    assert s[k..k + |a|] == (a + b)[..|a|];
    assert s[k + |a|..k + |a + b|] == (a + b)[|a|..];
  }

  lemma CharStands(s: string, k: nat, w: string, i: nat)
    requires Stands(s, k, w) && i < |w|
    ensures s[k + i] == w[i]
  {
    assert s[k..k + |w|][i] == w[i];
  }

  lemma {:induction false} LettersAreQuoted(s: string, k: nat, body: seq<Letter>)
    requires Letters(body) && Stands(s, k, Spelled(body)) && ModeAt(s, k) == Quoted(false)
    ensures forall i :: k <= i <= k + |Spelled(body)| ==> ModeAt(s, i).Quoted?
    ensures ModeAt(s, k + |Spelled(body)|) == Quoted(false)
    decreases |body|
  {
    if body != [] {
      var w := if body[0].Ordinary? then [body[0].c] else ['\\', body[0].c];
      assert Spelled(body) == w + Spelled(body[1..]);
      PartsStand(s, k, w, Spelled(body[1..]));
      CharStands(s, k, w, 0);
      if body[0].Escape? {
        assert ModeAt(s, k + 1) == Quoted(true);
      }
      LettersAreQuoted(s, k + |w|, body[1..]);
    }
  }

  lemma {:induction false} LineStays(s: string, k: nat, n: nat)
    requires k + n <= |s| && ModeAt(s, k) == Line
    requires forall i :: k <= i < k + n ==> !IsNewline(s[i])
    ensures forall i :: k <= i <= k + n ==> ModeAt(s, i) == Line
    decreases n
  {
    if n > 0 {
      LineStays(s, k, n - 1);
    }
  }

  lemma {:induction false} BlockStays(s: string, k: nat, n: nat)
    requires k + n <= |s| && ModeAt(s, k) == Block
    requires forall i :: k <= i < k + n && i + 1 < |s| ==> !(s[i] == '*' && s[i + 1] == '/')
    ensures forall i :: k <= i <= k + n ==> ModeAt(s, i) == Block
    decreases n
  {
    if n > 0 {
      BlockStays(s, k, n - 1);
    }
  }

  /** From `k` to `j` everything is comment. */
  ghost predicate AllComment(s: string, k: nat, j: nat) {
    k <= j <= |s| && forall i :: k <= i < j ==> IsComment(s, i)
  }

  /** Code starts at `j`, or the text ends there. */
  predicate Resumes(s: string, j: nat) {
    j == |s| || (j < |s| && ModeAt(s, j) == Code)
  }

  lemma LineIsComment(s: string, k: nat, mark: string, text: string)
    requires Stands(s, k, mark + text) && ModeAt(s, k) == Code && k + 1 < |s|
    requires (mark == "#" || mark == "//") && OneLine(text)
    ensures AllComment(s, k, k + |mark| + |text|) && ModeAt(s, k + |mark| + |text|) == Line
  {
    var m, n := k + |mark|, |text|;
    PartsStand(s, k, mark, text);
    CharStands(s, k, mark, 0);
    if mark == "//" {
      CharStands(s, k, mark, 1);
      assert ModeAt(s, k + 1) == OpenLine;
    }
    assert ModeAt(s, m) == Line;
    forall i | m <= i < m + n
      ensures !IsNewline(s[i])
    {
      CharStands(s, m, text, i - m);
    }
    LineStays(s, m, n);
  }

  lemma NoteIsComment(s: string, k: nat, mark: string, text: string, end: string)
    requires Stands(s, k, mark + text + end) && ModeAt(s, k) == Code
    requires (mark == "#" || mark == "//") && OneLine(text)
    requires end == "\n" || end == "\r" || (end == "" && k + |mark| + |text| == |s| && mark + text != "#")
    ensures AllComment(s, k, k + |mark| + |text| + |end|) && Resumes(s, k + |mark| + |text| + |end|)
  {
    var j := k + |mark| + |text|;
    PartsStand(s, k, mark + text, end);
    assert text == "" ==> mark + text == mark;
    LineIsComment(s, k, mark, text);
    if end != "" {
      CharStands(s, j, end, 0);
      assert IsComment(s, j) && ModeAt(s, j + 1) == Code;
    }
  }

  lemma OpensRemark(s: string, k: nat, text: string)
    requires Stands(s, k, "/*" + text) && ModeAt(s, k) == Code && Unclosed(text)
    requires k + |text| + 2 < |s| ==> s[k + |text| + 2] == '*'
    ensures AllComment(s, k, k + 2) && forall i :: k + 2 <= i <= k + 2 + |text| ==> ModeAt(s, i) == Block
  {
    PartsStand(s, k, "/*", text);
    CharStands(s, k, "/*", 0);
    CharStands(s, k, "/*", 1);
    assert ModeAt(s, k + 1) == OpenBlock && ModeAt(s, k + 2) == Block;
    forall i | k + 2 <= i < k + 2 + |text| && i + 1 < |s|
      ensures !(s[i] == '*' && s[i + 1] == '/')
    {
      CharStands(s, k + 2, text, i - k - 2);
      if i - k - 1 < |text| {
        CharStands(s, k + 2, text, i - k - 1);
      }
    }
    BlockStays(s, k + 2, |text|);
  }

  lemma RemarkIsComment(s: string, k: nat, text: string)
    requires Stands(s, k, "/*" + text + "*/") && ModeAt(s, k) == Code && Unclosed(text)
    ensures AllComment(s, k, k + |text| + 4) && Resumes(s, k + |text| + 4)
  {
    var j := k + 2 + |text|;
    PartsStand(s, k, "/*" + text, "*/");
    CharStands(s, j, "*/", 0);
    CharStands(s, j, "*/", 1);
    OpensRemark(s, k, text);
    assert ModeAt(s, j + 1) == CloseBlock;
    assert ModeAt(s, j + 2) == Advance(CloseBlock, s, j + 1);
  }

  /** A remark that is cut off is comment up to its last character. */
  lemma TornIsComment(s: string, k: nat, text: string)
    requires Stands(s, k, "/*" + text) && k + 2 + |text| == |s| && ModeAt(s, k) == Code && Unclosed(text)
    ensures if text == "" then AllComment(s, k, |s|)
            else AllComment(s, k, |s| - 1) && IsCode(s, |s| - 1) && s[|s| - 1] == Last(text)
  {
    OpensRemark(s, k, text);
    if text != "" {
      PartsStand(s, k, "/*", text);
      CharStands(s, k + 2, text, |text| - 1);
    }
  }

  lemma BodyIsQuoted(s: string, k: nat, body: seq<Letter>)
    requires Letters(body) && Stands(s, k, ['"'] + Spelled(body)) && ModeAt(s, k) == Code
    ensures var j := k + 1 + |Spelled(body)|;
            s[k] == '"' && ModeAt(s, j) == Quoted(false) && forall i :: k < i <= j ==> ModeAt(s, i).Quoted?
  {
    var w := ['"'] + Spelled(body);
    assert s[k..k + |w|][0] == w[0] && ModeAt(s, k + 1) == Quoted(false);
    assert s[k + 1..k + |w|] == w[1..] == Spelled(body);
    LettersAreQuoted(s, k + 1, body);
  }

  /** From `k` to `j` there is a string, the quote at `k` aside. */
  ghost predicate AllQuoted(s: string, k: nat, j: nat) {
    k < j <= |s| && IsCode(s, k) && s[k] == '"' && forall i :: k < i < j ==> ModeAt(s, i).Quoted?
  }

  lemma QuoteIsQuoted(s: string, k: nat, body: seq<Letter>)
    requires Letters(body) && Stands(s, k, ['"'] + Spelled(body) + ['"']) && ModeAt(s, k) == Code
    ensures var j := k + 2 + |Spelled(body)|; AllQuoted(s, k, j) && Resumes(s, j)
  {
    var j := k + 1 + |Spelled(body)|;
    PartsStand(s, k, ['"'] + Spelled(body), ['"']);
    CharStands(s, j, ['"'], 0);
    BodyIsQuoted(s, k, body);
    assert ModeAt(s, j + 1) == Advance(ModeAt(s, j), s, j);
  }

  lemma TornIsQuoted(s: string, k: nat, body: seq<Letter>, end: string)
    requires Letters(body) && Stands(s, k, ['"'] + Spelled(body) + end) && ModeAt(s, k) == Code
    requires |end| <= 1 && k + 1 + |Spelled(body)| + |end| == |s|
    ensures AllQuoted(s, k, |s|)
  {
    PartsStand(s, k, ['"'] + Spelled(body), end);
    BodyIsQuoted(s, k, body);
  }

  /** What the piece at `k` is to the preprocessor. */
  ghost predicate Recognised(s: string, k: nat, p: Piece) {
    match p
    case Plain(c) => k < |s| && IsCode(s, k) && s[k] == c
    case Quote(_) => AllQuoted(s, k, k + |Written(p)|)
    case TornQuote(_, _) => AllQuoted(s, k, k + |Written(p)|)
    case TornRemark(text) =>
      if text == "" then AllComment(s, k, |s|)
      else s != "" && AllComment(s, k, |s| - 1) && IsCode(s, |s| - 1) && s[|s| - 1] == Last(text)
    case _ => AllComment(s, k, k + |Written(p)|)
  }

  lemma SplitsAt(s: string, k: nat, w: string, rest: string)
    requires k <= |s| && s[k..] == w + rest
    ensures Stands(s, k, w) && s[k + |w|..] == rest
  {
    assert s[k..k + |w|] == (w + rest)[..|w|];
    assert s[k + |w|..] == (w + rest)[|w|..];
  }

  /** A piece stands at `k`, in code, and `rest` follows it. */
  predicate Opens(s: string, k: nat, p: Piece, rest: string) {
    k <= |s| && s[k..] == Written(p) + rest && Written(p) != "" && Resumes(s, k) && Fits(p, rest)
  }

  lemma PieceIsRecognised(s: string, k: nat, p: Piece, rest: string)
    requires Opens(s, k, p, rest)
    ensures Recognised(s, k, p) && Resumes(s, k + |Written(p)|)
    ensures Stands(s, k, Written(p)) && s[k + |Written(p)|..] == rest
  {
    SplitsAt(s, k, Written(p), rest);
    assert k < |s| && ModeAt(s, k) == Code;
    match p {
      case Plain(c) => CharStands(s, k, [c], 0);
      case Quote(body) => QuoteIsQuoted(s, k, body);
      case Note(mark, text, end) => NoteIsComment(s, k, mark, text, end);
      case Remark(text) => RemarkIsComment(s, k, text);
      case TornQuote(body, end) => TornIsQuoted(s, k, body, end);
      case TornRemark(text) => TornIsComment(s, k, text);
    }
  }

  lemma PieceEnds(s: string, k: nat, p: Piece, rest: string) returns (j: nat)
    requires Opens(s, k, p, rest)
    ensures j == k + |Written(p)| && k < j <= |s| && s[j..] == rest && Resumes(s, j)
  {
    PieceIsRecognised(s, k, p, rest);
    j := k + |Written(p)|;
  }

  // ---- Piece by piece ----------------------------------------------------------------------

  /** From `k` on, the text is written in the pieces. */
  ghost predicate At(s: string, k: nat, ps: seq<Piece>) {
    k <= |s| && s[k..] == Text(ps) && Fine(ps) && Resumes(s, k)
  }

  lemma Unfolds(ps: seq<Piece>)
    requires Fine(ps) && ps != []
    ensures Text(ps) == Written(ps[0]) + Text(ps[1..]) && Written(ps[0]) != ""
    ensures Fits(ps[0], Text(ps[1..])) && Fine(ps[1..])
  {
  }

  lemma NextPiece(s: string, k: nat, ps: seq<Piece>) returns (j: nat)
    requires At(s, k, ps) && ps != []
    ensures Opens(s, k, ps[0], Text(ps[1..])) && Stands(s, k, Written(ps[0]))
    ensures j == k + |Written(ps[0])| && k < j && At(s, j, ps[1..])
  {
    Unfolds(ps);
    SplitsAt(s, k, Written(ps[0]), Text(ps[1..]));
    j := PieceEnds(s, k, ps[0], Text(ps[1..]));
  }

  lemma PlainCloses(s: string, k: nat)
    requires k < |s| && IsCode(s, k)
    ensures Closes(s, k) <==> if IsSpace(s[k]) && k + 1 < |s| then Closes(s, k + 1) else IsCloser(s[k])
  {
  }

  lemma NoteCloses(s: string, k: nat, j: nat)
    requires AllComment(s, k, j)
    ensures Closes(s, k) <==> Closes(s, j)
  {
    NextSolidFrom(s, k, j);
  }

  lemma TornCloses(s: string, k: nat, text: string)
    requires Recognised(s, k, TornRemark(text))
    ensures Closes(s, k) <==> text == "" || IsCloser(Last(text))
  {
    if text == "" {
      NoteCloses(s, k, |s|);
    } else {
      NoteCloses(s, k, |s| - 1);
      PlainCloses(s, |s| - 1);
    }
  }

  lemma PieceCloses(s: string, k: nat, p: Piece, rest: string, j: nat)
    requires Opens(s, k, p, rest) && j == k + |Written(p)| <= |s|
    ensures Closes(s, k) <==>
            match p
            case Plain(c) => if IsSpace(c) && rest != "" then Closes(s, j) else IsCloser(c)
            case Note(_, _, _) => Closes(s, j)
            case Remark(_) => Closes(s, j)
            case TornRemark(text) => text == "" || IsCloser(Last(text))
            case _ => false
  {
    PieceIsRecognised(s, k, p, rest);
    match p {
      case Note(_, _, _) => NoteCloses(s, k, j);
      case Remark(_) => NoteCloses(s, k, j);
      case TornRemark(text) => TornCloses(s, k, text);
      case _ => PlainCloses(s, k);
    }
  }

  lemma {:induction false} ClosesAsRead(s: string, k: nat, ps: seq<Piece>)
    requires At(s, k, ps)
    ensures Closes(s, k) == Closing(ps)
    decreases |ps|
  {
    if ps != [] {
      var j := NextPiece(s, k, ps);
      ClosesAsRead(s, j, ps[1..]);
      PieceCloses(s, k, ps[0], Text(ps[1..]), j);
      if |ps| > 1 {
        Unfolds(ps[1..]);
      }
    }
  }

  lemma KeptWhereQuoted(s: string, k: nat, w: string)
    requires Stands(s, k, w) && AllQuoted(s, k, k + |w|)
    ensures Processed(s)[k..k + |w|] == w
  {
    forall i | 0 <= i < |w|
      ensures Processed(s)[k + i] == w[i]
    {
      CharStands(s, k, w, i);
    }
  }

  lemma ErasedWhereComment(s: string, k: nat, w: string)
    requires Stands(s, k, w) && AllComment(s, k, k + |w|)
    ensures Processed(s)[k..k + |w|] == Erased(w)
  {
    forall i | 0 <= i < |w|
      ensures Processed(s)[k + i] == Erased(w)[i]
    {
      CharStands(s, k, w, i);
      assert IsComment(s, k + i);
    }
  }

  lemma PlainIsCleaned(s: string, k: nat, c: char, rest: seq<Piece>)
    requires Recognised(s, k, Plain(c)) && Closes(s, k + 1) == Closing(rest)
    ensures Processed(s)[k..k + 1] == CleanedPiece(Plain(c), rest)
  {
    assert Processed(s)[k] == Blanked(s, k);
  }

  lemma TornIsErased(s: string, k: nat, text: string)
    requires Stands(s, k, "/*" + text) && k + 2 + |text| == |s| && Recognised(s, k, TornRemark(text))
    ensures Processed(s)[k..] == CleanedPiece(TornRemark(text), [])
  {
    if text == "" {
      assert "/*" + text == "/*";
      ErasedWhereComment(s, k, "/*");
      assert Erased("/*") == "  ";
    } else {
      var n := |s| - 1;
      var w := "/*" + Front(text);
      assert "/*" + text == w + [Last(text)];
      PartsStand(s, k, w, [Last(text)]);
      ErasedWhereComment(s, k, w);
      PlainIsCleaned(s, n, Last(text), []);
      SplitInThree(Processed(s), k, n);
    }
  }

  lemma SplitInThree(t: string, k: nat, n: nat)
    requires k <= n && n + 1 == |t|
    ensures t[k..] == t[k..n] + t[n..n + 1]
  {
  }

  lemma PlainIsRead(s: string, k: nat, c: char, rest: seq<Piece>)
    requires k < |s| && IsCode(s, k) && s[k] == c && At(s, k + 1, rest)
    ensures Processed(s)[k..k + 1] == CleanedPiece(Plain(c), rest)
  {
    ClosesAsRead(s, k + 1, rest);
    PlainIsCleaned(s, k, c, rest);
  }

  lemma NoteIsErased(s: string, k: nat, p: Piece, rest: seq<Piece>, j: nat)
    requires Opens(s, k, p, Text(rest)) && (p.Note? || p.Remark?) && j == k + |Written(p)|
    ensures j <= |s| && Processed(s)[k..j] == CleanedPiece(p, rest)
  {
    PieceIsRecognised(s, k, p, Text(rest));
    ErasedWhereComment(s, k, Written(p));
  }

  lemma QuoteIsKept(s: string, k: nat, p: Piece, rest: seq<Piece>, j: nat)
    requires Opens(s, k, p, Text(rest)) && (p.Quote? || p.TornQuote?) && j == k + |Written(p)|
    ensures j <= |s| && Processed(s)[k..j] == CleanedPiece(p, rest)
  {
    PieceIsRecognised(s, k, p, Text(rest));
    KeptWhereQuoted(s, k, Written(p));
  }

  lemma TornIsRead(s: string, k: nat, text: string, rest: seq<Piece>, j: nat)
    requires Opens(s, k, TornRemark(text), Text(rest)) && j == k + |Written(TornRemark(text))|
    ensures k <= j <= |s| && Processed(s)[k..j] == CleanedPiece(TornRemark(text), rest)
  {
    PieceIsRecognised(s, k, TornRemark(text), Text(rest));
    TornIsErased(s, k, text);
  }

  lemma PlainStands(s: string, k: nat, c: char, rest: seq<Piece>)
    requires Opens(s, k, Plain(c), Text(rest)) && At(s, k + 1, rest)
    ensures k + 1 <= |s| && Processed(s)[k..k + 1] == CleanedPiece(Plain(c), rest)
  {
    PieceIsRecognised(s, k, Plain(c), Text(rest));
    PlainIsRead(s, k, c, rest);
  }

  lemma PieceIsCleaned(s: string, k: nat, p: Piece, rest: seq<Piece>, j: nat)
    requires Opens(s, k, p, Text(rest)) && j == k + |Written(p)| && At(s, j, rest)
    ensures k <= j <= |s| && Processed(s)[k..j] == CleanedPiece(p, rest)
  {
    match p {
      case Plain(c) => PlainStands(s, k, c, rest);
      case Note(_, _, _) => NoteIsErased(s, k, p, rest, j);
      case Remark(_) => NoteIsErased(s, k, p, rest, j);
      case TornRemark(text) => TornIsRead(s, k, text, rest, j);
      case _ => QuoteIsKept(s, k, p, rest, j);
    }
  }

  lemma {:induction false} CleanedFrom(s: string, k: nat, ps: seq<Piece>)
    requires At(s, k, ps)
    ensures Processed(s)[k..] == Cleaned(ps)
    decreases |ps|
  {
    if ps != [] {
      var j := NextPiece(s, k, ps);
      PieceIsCleaned(s, k, ps[0], ps[1..], j);
      CleanedFrom(s, j, ps[1..]);
      Rejoins(Processed(s), k, j);
    }
  }

  lemma Rejoins(t: string, k: nat, j: nat)
    requires k <= j <= |t|
    ensures t[k..] == t[k..j] + t[j..]
  {
  }

  /** However a text is written in pieces, the preprocessor makes of it what becomes of them. */
  lemma PiecesAreCleaned(ps: seq<Piece>)
    requires Fine(ps)
    ensures Processed(Text(ps)) == Cleaned(ps)
  {
    CleanedFrom(Text(ps), 0, ps);
  }

  // ---- Every text is written in pieces -----------------------------------------------------

  lemma {:induction false} ReadLetters(s: string) returns (body: seq<Letter>, rest: string)
    ensures Letters(body) && s == Spelled(body) + rest
    ensures rest == "" || rest == "\\" || rest[0] == '"'
    decreases |s|
  {
    if s == "" || s == "\\" || s[0] == '"' {
      body, rest := [], s;
    } else if s[0] == '\\' {
      body, rest := ReadLetters(s[2..]);
      body := [Escape(s[1])] + body;
    } else {
      body, rest := ReadLetters(s[1..]);
      body := [Ordinary(s[0])] + body;
    }
  }

  lemma {:induction false} ReadLine(s: string) returns (text: string, rest: string)
    ensures OneLine(text) && s == text + rest && (rest == "" || IsNewline(rest[0]))
    decreases |s|
  {
    if s == "" || IsNewline(s[0]) {
      text, rest := "", s;
    } else {
      text, rest := ReadLine(s[1..]);
      text := [s[0]] + text;
    }
  }

  lemma {:induction false} ReadRemark(s: string) returns (text: string, rest: string)
    ensures Unclosed(text) && s == text + rest && (rest == "" || "*/" <= rest)
    decreases |s|
  {
    if s == "" || "*/" <= s {
      text, rest := "", s;
    } else {
      text, rest := ReadRemark(s[1..]);
      assert s[1..] == text + rest;
      text := [s[0]] + text;
    }
  }

  lemma Prepend(p: Piece, rest: string, ps: seq<Piece>, s: string) returns (r: seq<Piece>)
    requires Fine(ps) && Text(ps) == rest && Fits(p, rest) && s == Written(p) + rest
    ensures Fine(r) && Text(r) == s
  {
    r := [p] + ps;
    assert r[1..] == ps;
  }

  lemma FirstOf(s: string) returns (p: Piece, rest: string)
    requires s != ""
    ensures s == Written(p) + rest && |rest| < |s| && Fits(p, rest)
  {
    if s[0] == '"' {
      var body, more := ReadLetters(s[1..]);
      if more == "" || more == "\\" {
        p, rest := TornQuote(body, more), "";
      } else {
        p, rest := Quote(body), more[1..];
        assert s == ['"'] + Spelled(body) + ['"'] + rest;
      }
    } else if |s| > 1 && (s[0] == '#' || (s[0] == '/' && s[1] == '/')) {
      p, rest := FirstNote(s, if s[0] == '#' then "#" else "//");
    } else if |s| > 1 && s[0] == '/' && s[1] == '*' {
      var text, more := ReadRemark(s[2..]);
      if more == "" {
        p, rest := TornRemark(text), "";
      } else {
        p, rest := Remark(text), more[2..];
        assert s == "/*" + text + "*/" + rest;
      }
    } else {
      p, rest := Plain(s[0]), s[1..];
    }
  }

  lemma FirstNote(s: string, mark: string) returns (p: Piece, rest: string)
    requires |s| > 1 && mark <= s && (mark == "#" || mark == "//")
    ensures s == Written(p) + rest && |rest| < |s| && Fits(p, rest)
  {
    var text, more := ReadLine(s[|mark|..]);
    var end := if more == "" then "" else [more[0]];
    p, rest := Note(mark, text, end), more[|end|..];
    assert s == mark + text + end + rest;
  }

  /** Every text reads as pieces. */
  lemma {:induction false} TextReads(s: string) returns (ps: seq<Piece>)
    ensures Fine(ps) && Text(ps) == s
    decreases |s|
  {
    ps := [];
    if s != "" {
      var p, rest := FirstOf(s);
      ps := TextReads(rest);
      ps := Prepend(p, rest, ps, s);
    }
  }

  /** The preprocessor does to any text what is told of its pieces, whichever way it is read. */
  lemma EveryTextIsCleaned(s: string) returns (ps: seq<Piece>)
    ensures Fine(ps) && Text(ps) == s && Processed(s) == Cleaned(ps)
  {
    ps := TextReads(s);
    PiecesAreCleaned(ps);
  }
}
