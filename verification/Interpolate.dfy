/**
 * Interpolation: a text is walked escape by escape and fragment by fragment. Evaluating a fragment and
 * rendering a value as text are parameters.
 */
module Interpolate {
  import opened Common
  import opened Scanner

  type Evaluator = string -> Result<Value>

  type Renderer = Value -> string

  // ---- the pieces of a text ----

  /** A stretch of the source. */
  datatype Piece = Literal(text: string) | Escape(text: string) | Fragment(text: string)

  /** A text's pieces, and what is left: a last literal, or an unclosed fragment with the text before it. */
  datatype Parsed = Parsed(pieces: seq<Piece>, tail: string, closed: bool)

  lemma ScanAdvances(src: string)
    ensures Scan(src).Found? ==> Scan(src).window.start < Scan(src).window.end <= |src|
  {
    ScanMeaning(src);
  }

  function Parse(src: string): Parsed
    decreases |src|
  {
    match Scan(src)
    case NoWindow => Parsed([], src, true)
    case Unclosed(_) => Parsed([], src, false)
    case Found(w) =>
      ScanAdvances(src);
      var text := src[w.start..w.end];
      var more := Parse(src[w.end..]);
      Parsed([Literal(src[..w.start]), if w.escape then Escape(text) else Fragment(text)] + more.pieces, more.tail,
             more.closed)
  }

  function Source(pieces: seq<Piece>): string {
    if pieces == [] then "" else pieces[0].text + Source(pieces[1..])
  }

  lemma SourceOfTwo(a: Piece, b: Piece, more: seq<Piece>)
    ensures Source([a, b] + more) == a.text + b.text + Source(more)
  {
    assert ([a, b] + more)[1..] == [b] + more;
    assert ([b] + more)[1..] == more;
  }

  /** Nothing of a text is lost: its pieces and its tail are the text. */
  lemma {:induction false} Lossless(src: string)
    ensures Source(Parse(src).pieces) + Parse(src).tail == src
    decreases |src|
  {
    hide Source, Scan;
    ScanAdvances(src);
    match Scan(src)
    case Found(w) =>
      Lossless(src[w.end..]);
      var more := Parse(src[w.end..]);
      SourceOfTwo(Parse(src).pieces[0], Parse(src).pieces[1], more.pieces);
      assert src == src[..w.start] + src[w.start..w.end] + src[w.end..];
    case _ =>
      SourceOfNone();
  }

  lemma SourceOfNone()
    ensures Source([]) == ""
  {}

  ghost predicate IsEscape(text: string) {
    |text| >= 2 && text[0] == '\\' && |text| == if FragmentAt(text, 1) then 3 else 2
  }

  /** Text with no escape and no opening in it. */
  ghost predicate IsPlain(text: string) {
    NothingBefore(text, 0, |text|)
  }

  ghost predicate GoodPiece(piece: Piece) {
    match piece
    case Literal(text) => IsPlain(text)
    case Escape(text) => IsEscape(text)
    case Fragment(text) => FragmentAt(text, 0) && exists items :: IsFragment(text, items, text[1])
  }

  /**
   * Each fragment piece is a well-formed fragment, each escape piece one escape, and each literal holds
   * neither; what is left at the end is plain, or begins a fragment that never closes.
   */
  lemma {:induction false} PiecesAreGood(src: string)
    ensures forall i :: 0 <= i < |Parse(src).pieces| ==> GoodPiece(Parse(src).pieces[i])
    ensures if Parse(src).closed then IsPlain(Parse(src).tail) else Scan(Parse(src).tail).Unclosed?
    decreases |src|
  {
    hide GoodPiece, IsPlain;
    match Scan(src)
    case Found(w) =>
      ScanAdvances(src);
      PieceIsGood(src, w);
      LiteralIsGood(src, w.start);
      PiecesAreGood(src[w.end..]);
    case NoWindow =>
      TailIsPlain(src);
    case Unclosed(_) =>
  }

  lemma TailIsPlain(src: string)
    requires Scan(src).NoWindow?
    ensures IsPlain(src)
  {
    ScanMeaning(src);
  }

  lemma LiteralIsGood(src: string, start: nat)
    requires start <= |src| && Scan(src).Found? && Scan(src).window.start == start
    ensures GoodPiece(Literal(src[..start]))
  {
    hide Scan;
    ScanMeaning(src);
    var text := src[..start];
    forall i | 0 <= i < |text| ensures !EscapeAt(text, i) && !FragmentAt(text, i) {
      assert !EscapeAt(src, i) && !FragmentAt(src, i);
    }
  }

  lemma PieceIsGood(src: string, w: Window)
    requires Scan(src) == Found(w)
    ensures w.start < w.end <= |src|
    ensures GoodPiece(if w.escape then Escape(src[w.start..w.end]) else Fragment(src[w.start..w.end]))
  {
    hide WellItems, FragmentText;
    ScanMeaning(src);
    var text := src[w.start..w.end];
    if !w.escape {
      var whole, n := src[w.start..], w.end - w.start;
      assert whole[..n] == text;
      assert Matched(whole, src[w.start + 1], n);
      var items :| IsFragment(whole[..n], items, src[w.start + 1]);
      FragmentStarts(text, items, src[w.start + 1]);
    }
  }

  lemma FragmentStarts(text: string, items: seq<Item>, open: char)
    requires IsFragment(text, items, open) && Opens(open)
    ensures FragmentAt(text, 0) && text[1] == open
  {}

  // ---- what interpolation means ----

  /** The escaping rules: a doubled backslash is one, and an escaped opening is the opening. */
  function Unescape(escape: string): string {
    if escape == "\\\\" then "\\"
    else if "\\$" <= escape && |escape| > 2 then escape[1..]
    else escape
  }

  /** What one piece contributes. */
  function PieceText(piece: Piece, eval: Evaluator, show: Renderer): Result<string> {
    match piece
    case Literal(text) => Ok(text)
    case Escape(text) => Ok(Unescape(text))
    case Fragment(text) =>
      match eval(if text == "" then "" else text[1..])
      case Err(e) => Err(e)
      case Ok(v) => Ok(show(v))
  }

  /** The text of a list of pieces, or the first failure of a fragment. */
  function Rendered(pieces: seq<Piece>, eval: Evaluator, show: Renderer): Result<string> {
    if pieces == [] then Ok("")
    else
      match PieceText(pieces[0], eval, show)
      case Err(e) => Err(e)
      case Ok(text) =>
        match Rendered(pieces[1..], eval, show)
        case Err(e) => Err(e)
        case Ok(more) => Ok(text + more)
  }

  predicate IsWhole(src: string) {
    Scan(src) == Found(Window(0, |src|, false))
  }

  function Concatenated(done: string, src: string, eval: Evaluator, show: Renderer): Result<Value> {
    match Rendered(Parse(src).pieces, eval, show)
    case Err(e) => Err(e)
    case Ok(text) => if Parse(src).closed then Ok(Str(done + text + Parse(src).tail)) else Err(ExpressionSyntax)
  }

  /** One fragment that is the whole text keeps its value's type; everything else becomes text. */
  function Meaning(src: string, eval: Evaluator, show: Renderer): Result<Value> {
    if IsWhole(src) then
      ScanAdvances(src);
      eval(src[1..])
    else Concatenated("", src, eval, show)
  }

  lemma RenderedTwo(literal: string, piece: Piece, more: seq<Piece>, eval: Evaluator, show: Renderer)
    ensures var all := Rendered([Literal(literal), piece] + more, eval, show);
            match PieceText(piece, eval, show)
            case Err(e) => all == Err(e)
            case Ok(text) => match Rendered(more, eval, show)
                             case Err(e) => all == Err(e)
                             case Ok(rest) => all == Ok(literal + (text + rest))
  {
    hide PieceText;
    var pieces := [Literal(literal), piece] + more;
    assert pieces[1..] == [piece] + more && pieces[1..][1..] == more;
    assert PieceText(Literal(literal), eval, show) == Ok(literal) by { LiteralText(literal, eval, show); }
  }

  lemma LiteralText(literal: string, eval: Evaluator, show: Renderer)
    ensures PieceText(Literal(literal), eval, show) == Ok(literal)
  {}

  /** Consuming the first literal and the escape or fragment after it. */
  lemma ConcatenatedOne(done: string, src: string, eval: Evaluator, show: Renderer)
    requires Scan(src).Found?
    ensures var w := Scan(src).window;
            && w.start < w.end <= |src|
            && var piece := if w.escape then Escape(src[w.start..w.end]) else Fragment(src[w.start..w.end]);
            match PieceText(piece, eval, show)
            case Err(e) => Concatenated(done, src, eval, show) == Err(e)
            case Ok(text) =>
              Concatenated(done, src, eval, show) ==
                Concatenated(done + src[..w.start] + text, src[w.end..], eval, show)
  {
    hide Scan, Rendered, PieceText;
    ScanAdvances(src);
    var w := Scan(src).window;
    var piece := if w.escape then Escape(src[w.start..w.end]) else Fragment(src[w.start..w.end]);
    var more := Parse(src[w.end..]);
    RenderedTwo(src[..w.start], piece, more.pieces, eval, show);
    if PieceText(piece, eval, show).Ok? && Rendered(more.pieces, eval, show).Ok? {
      var text, rest := PieceText(piece, eval, show).value, Rendered(more.pieces, eval, show).value;
      assert done + (src[..w.start] + (text + rest)) + more.tail == (done + src[..w.start] + text) + rest + more.tail;
    }
  }

  predicate IsWholeString(parts: seq<string>, w: Window, rest: string) {
    |parts| == 1 && w.start == 0 && w.end == |rest|
  }

  function Joined(parts: seq<string>): string {
    if parts == [] then "" else Joined(parts[..|parts| - 1]) + parts[|parts| - 1]
  }

  lemma JoinedTwo(parts: seq<string>, a: string, b: string)
    ensures Joined(parts + [a]) == Joined(parts) + a
    ensures Joined(parts + [a] + [b]) == Joined(parts) + a + b
  {
    assert (parts + [a])[..|parts|] == parts;
    assert (parts + [a] + [b])[..|parts| + 1] == parts + [a];
  }

  /** Walks a text fragment by fragment, evaluating and concatenating. */
  method Run(src: string, eval: Evaluator, show: Renderer) returns (r: Result<Value>)
    ensures r == Meaning(src, eval, show) && Gives(src, eval, show, r)
  {
    MeaningGives(src, eval, show);
    hide Gives;
    hide Scan, Parse, Rendered, Unescape, Joined, Concatenated;
    assert Joined([]) == "" by { JoinedNone(); }
    var parts: seq<string> := [];
    var rest := src;
    while true
      invariant parts == [] ==> rest == src
      invariant |parts| != 1
      invariant parts != [] ==>
          !IsWhole(src) && Meaning(src, eval, show) == Concatenated(Joined(parts), rest, eval, show)
      decreases |rest|
    {
      var found := ScanFragment(rest);
      ScanAdvances(rest);
      if found.Unclosed? {
        Ends(Joined(parts), rest, eval, show);
        return Err(ExpressionSyntax);
      }
      if found.NoWindow? {
        break;
      }
      var w := found.window;
      ConcatenatedOne(Joined(parts), rest, eval, show);
      ghost var before := Joined(parts);
      if w.escape {
        JoinedTwo(parts, rest[..w.start], Unescape(rest[w.start..w.end]));
        parts := parts + [rest[..w.start]];
        parts := parts + [Unescape(rest[w.start..w.end])];
        rest := rest[w.end..];
        continue;
      }
      assert rest[w.start..w.end][1..] == rest[w.start + 1..w.end];
      var value := eval(rest[w.start + 1..w.end]);
      assert parts == [] && IsWhole(src) ==> rest[w.start + 1..w.end] == src[1..];
      if value.Err? {
        return Err(value.error);
      }
      JoinedTwo(parts, rest[..w.start], show(value.value));
      parts := parts + [rest[..w.start]];
      if IsWholeString(parts, w, rest) {
        return Ok(value.value);
      }
      parts := parts + [show(value.value)];
      rest := rest[w.end..];
    }
    Ends(Joined(parts), rest, eval, show);
    JoinedTwo(parts, rest, "");
    parts := parts + [rest];
    return Ok(Str(Joined(parts)));
  }

  lemma JoinedNone()
    ensures Joined([]) == ""
  {}

  /** A text with no window left is its own tail; an unclosed fragment is an error. */
  lemma Ends(done: string, src: string, eval: Evaluator, show: Renderer)
    ensures Scan(src).NoWindow? ==> Concatenated(done, src, eval, show) == Ok(Str(done + src))
    ensures Scan(src).Unclosed? ==> Concatenated(done, src, eval, show) == Err(ExpressionSyntax)
  {
    hide Scan;
    assert done + "" + src == done + src;
  }

  /** A typed value is returned only when one fragment is the whole text, and then it is that fragment's value. */
  lemma TypedOnlyWhenWhole(src: string, eval: Evaluator, show: Renderer)
    requires Meaning(src, eval, show).Ok? && !Meaning(src, eval, show).value.Str?
    ensures |src| > 1 && Matched(src, src[1], |src|) && Meaning(src, eval, show) == eval(src[1..])
  {
    hide Scan, Parse, Rendered;
    ScanMeaning(src);
    assert src[0..] == src;
  }

  // ---- interpolation, said of the pieces themselves ----

  /** What a piece becomes: a fragment's value as text, an escaped opening or backslash, or the text itself. */
  predicate Becomes(piece: Piece, eval: Evaluator, show: Renderer, text: string) {
    match piece
    case Literal(t) => text == t
    case Escape(t) =>
      if t == "\\\\" then text == "\\"
      else if |t| == 3 && t[0] == '\\' && t[1] == '$' then text == [t[1], t[2]]
      else text == t
    case Fragment(t) => t != "" && eval(t[1..]).Ok? && text == show(eval(t[1..]).value)
  }

  /** A fragment whose evaluation fails, and what it fails with. */
  predicate FailsAt(pieces: seq<Piece>, eval: Evaluator, i: nat, e: Error)
    requires i < |pieces|
  {
    pieces[i].Fragment? && pieces[i].text != "" && eval(pieces[i].text[1..]) == Err(e)
  }

  /**
   * A text cut into pieces and a tail: a literal up to the first escape or fragment, then that, then the cut of
   * what follows; the tail has neither, or begins with a fragment that never closes after text with neither.
   */
  ghost predicate Cuts(src: string, pieces: seq<Piece>, tail: string, closed: bool)
    decreases |pieces|
  {
    if pieces == [] then tail == src && if closed then Means(src, 0, NoWindow)
      else exists at :: Means(src, 0, Unclosed(at))
    else exists w: Window :: CutFirst(src, pieces, w) && Cuts(src[w.end..], pieces[2..], tail, closed)
  }

  /** The first two pieces are the text before the first escape or fragment, and that escape or fragment. */
  ghost predicate CutFirst(src: string, pieces: seq<Piece>, w: Window) {
    && Means(src, 0, Found(w)) && w.start <= w.end <= |src| && |pieces| >= 2
    && pieces[0] == Literal(src[..w.start])
    && pieces[1] == if w.escape then Escape(src[w.start..w.end]) else Fragment(src[w.start..w.end])
  }

  lemma {:induction false} ParseCuts(src: string)
    ensures Cuts(src, Parse(src).pieces, Parse(src).tail, Parse(src).closed)
    decreases |src|
  {
    hide Scan, Means;
    ScanMeaning(src);
    ScanAdvances(src);
    match Scan(src)
    case Found(w) =>
      var p := Parse(src);
      ParseCuts(src[w.end..]);
      assert p.pieces[2..] == Parse(src[w.end..]).pieces;
      assert CutFirst(src, p.pieces, w);
    case _ =>
  }

  /** A text is cut in one way, the one that it is parsed in. */
  lemma {:induction false} OnlyCuts(src: string, pieces: seq<Piece>, tail: string, closed: bool)
    requires Cuts(src, pieces, tail, closed)
    ensures Parse(src) == Parsed(pieces, tail, closed)
    decreases |pieces|
  {
    hide Scan, Means, Parse;
    if pieces == [] {
      ParsesNone(src, closed);
    } else {
      var w: Window :| CutFirst(src, pieces, w) && Cuts(src[w.end..], pieces[2..], tail, closed);
      OnlyCuts(src[w.end..], pieces[2..], tail, closed);
      ParsesFirst(src, pieces, w);
    }
  }

  lemma ParsesNone(src: string, closed: bool)
    requires if closed then Means(src, 0, NoWindow) else exists at :: Means(src, 0, Unclosed(at))
    ensures Parse(src) == Parsed([], src, closed)
  {
    hide Scan, Means;
    if closed {
      OnlyOutcome(src, NoWindow);
    } else {
      var at :| Means(src, 0, Unclosed(at));
      OnlyOutcome(src, Unclosed(at));
    }
  }

  lemma ParsesFirst(src: string, pieces: seq<Piece>, w: Window)
    requires CutFirst(src, pieces, w) && Parse(src[w.end..]).pieces == pieces[2..]
    ensures var more := Parse(src[w.end..]); Parse(src) == Parsed(pieces, more.tail, more.closed)
  {
    hide Scan, Means;
    OnlyOutcome(src, Found(w));
    assert pieces == [pieces[0], pieces[1]] + pieces[2..];
  }

  ghost predicate AllBecome(pieces: seq<Piece>, eval: Evaluator, show: Renderer, texts: seq<string>) {
    |texts| == |pieces| && forall i :: 0 <= i < |pieces| ==> Becomes(pieces[i], eval, show, texts[i])
  }

  ghost predicate FirstFails(pieces: seq<Piece>, eval: Evaluator, e: Error) {
    exists i :: 0 <= i < |pieces| && FailsAt(pieces, eval, i, e) &&
      forall j :: 0 <= j < i && pieces[j].Fragment? ==> pieces[j].text != "" && eval(pieces[j].text[1..]).Ok?
  }

  /**
   * What interpolating a text gives: the value of the one fragment it is; else the error of its first failing
   * fragment, or a syntax error if an opening never closes, or the text with every piece become what it becomes.
   */
  ghost predicate Gives(src: string, eval: Evaluator, show: Renderer, r: Result<Value>) {
    if |src| > 1 && FragmentAt(src, 0) && Matched(src, src[1], |src|) then r == eval(src[1..])
    else exists pieces, tail, closed :: Cuts(src, pieces, tail, closed) && GivenBy(pieces, tail, closed, eval, show, r)
  }

  ghost predicate GivenBy(pieces: seq<Piece>, tail: string, closed: bool, eval: Evaluator, show: Renderer,
                          r: Result<Value>)
  {
    || (exists e :: FirstFails(pieces, eval, e) && r == Err(e))
    || (exists texts :: AllBecome(pieces, eval, show, texts) &&
          r == if closed then Ok(Str(Concat(texts) + tail)) else Err(ExpressionSyntax))
  }

  function Concat(texts: seq<string>): string {
    if texts == [] then "" else texts[0] + Concat(texts[1..])
  }

  lemma PieceBecomes(piece: Piece, eval: Evaluator, show: Renderer)
    requires GoodPiece(piece)
    ensures match PieceText(piece, eval, show)
            case Ok(text) => Becomes(piece, eval, show, text)
            case Err(e) => piece.Fragment? && piece.text != "" && eval(piece.text[1..]) == Err(e)
  {}

  lemma {:induction false} RenderedGives(pieces: seq<Piece>, eval: Evaluator, show: Renderer)
    requires forall i :: 0 <= i < |pieces| ==> GoodPiece(pieces[i])
    ensures match Rendered(pieces, eval, show)
            case Err(e) => FirstFails(pieces, eval, e)
            case Ok(text) => exists texts :: AllBecome(pieces, eval, show, texts) && text == Concat(texts)
  {
    hide PieceText, Becomes, GoodPiece;
    if pieces == [] {
      assert AllBecome(pieces, eval, show, []);
    } else {
      PieceBecomes(pieces[0], eval, show);
      RenderedGives(pieces[1..], eval, show);
      match PieceText(pieces[0], eval, show) {
        case Err(e) => assert FailsAt(pieces, eval, 0, e);
        case Ok(text) =>
          FragmentOk(pieces[0], eval, show, text);
          match Rendered(pieces[1..], eval, show) {
            case Err(e) => LaterFails(pieces, eval, e);
            case Ok(_) =>
              var texts :| AllBecome(pieces[1..], eval, show, texts)
                && Rendered(pieces[1..], eval, show).value == Concat(texts);
              assert ([text] + texts)[1..] == texts;
              assert AllBecome(pieces, eval, show, [text] + texts) by {
                assert forall i :: 0 < i < |pieces| ==> pieces[i] == pieces[1..][i - 1];
              }
          }
      }
    }
  }

  lemma FragmentOk(piece: Piece, eval: Evaluator, show: Renderer, text: string)
    requires Becomes(piece, eval, show, text)
    ensures piece.Fragment? ==> piece.text != "" && eval(piece.text[1..]).Ok?
  {}

  lemma LaterFails(pieces: seq<Piece>, eval: Evaluator, e: Error)
    requires pieces != [] && FirstFails(pieces[1..], eval, e)
    requires pieces[0].Fragment? ==> pieces[0].text != "" && eval(pieces[0].text[1..]).Ok?
    ensures FirstFails(pieces, eval, e)
  {
    var i :| 0 <= i < |pieces[1..]| && FailsAt(pieces[1..], eval, i, e) &&
      forall j :: 0 <= j < i && pieces[1..][j].Fragment? ==>
        pieces[1..][j].text != "" && eval(pieces[1..][j].text[1..]).Ok?;
    assert FailsAt(pieces, eval, i + 1, e);
    forall j | 0 <= j < i + 1 && pieces[j].Fragment? ensures pieces[j].text != "" && eval(pieces[j].text[1..]).Ok? {
      assert j > 0 ==> pieces[1..][j - 1] == pieces[j];
    }
  }

  lemma WholeIs(src: string)
    ensures IsWhole(src) <==> |src| > 1 && FragmentAt(src, 0) && Matched(src, src[1], |src|)
  {
    hide Matched;
    ScanMeaning(src);
    assert src[0..] == src;
    if |src| > 1 && FragmentAt(src, 0) && Matched(src, src[1], |src|) {
      WholeScans(src);
    }
  }

  lemma WholeScans(src: string)
    requires |src| > 1 && FragmentAt(src, 0) && Matched(src, src[1], |src|)
    ensures Scan(src) == Found(Window(0, |src|, false))
  {
    hide Scan, WellItems, FragmentText;
    ScanMeaning(src);
    assert src[0..] == src && src[..|src|] == src;
    var items :| IsFragment(src[..|src|], items, src[1]);
    assert StartsWith(src, items, src[1]);
    assert !EscapeAt(src, 0);
  }

  /** Interpolation gives what the pieces of the text become. */
  lemma MeaningGives(src: string, eval: Evaluator, show: Renderer)
    ensures Gives(src, eval, show, Meaning(src, eval, show))
  {
    hide Scan, Parse, Rendered, GoodPiece, IsPlain, Matched;
    WholeIs(src);
    if !IsWhole(src) {
      var p := Parse(src);
      PiecesAreGood(src);
      ParseCuts(src);
      RenderedGives(p.pieces, eval, show);
      GivenIf(src, eval, show);
    }
  }

  lemma GivenIf(src: string, eval: Evaluator, show: Renderer)
    requires match Rendered(Parse(src).pieces, eval, show)
             case Err(e) => FirstFails(Parse(src).pieces, eval, e)
             case Ok(text) => exists texts :: AllBecome(Parse(src).pieces, eval, show, texts) && text == Concat(texts)
    ensures GivenBy(Parse(src).pieces, Parse(src).tail, Parse(src).closed, eval, show,
                    Concatenated("", src, eval, show))
  {
    hide Scan, Parse, Rendered, AllBecome, FirstFails;
    var p := Parse(src);
    if Rendered(p.pieces, eval, show).Ok? {
      var texts :| AllBecome(p.pieces, eval, show, texts) && Rendered(p.pieces, eval, show).value == Concat(texts);
      assert "" + Concat(texts) + p.tail == Concat(texts) + p.tail;
    }
  }

  // ---- escaping ----

  /** Every backslash, `$(` and `${` escaped. */
  function Escaped(t: string): string {
    if t == "" then ""
    else if t[0] == '\\' then "\\\\" + Escaped(t[1..])
    else if FragmentAt(t, 0) then ['\\', '$', t[1]] + Escaped(t[2..])
    else [t[0]] + Escaped(t[1..])
  }

  function Shifted(r: Outcome, k: nat): Outcome {
    match r
    case NoWindow => NoWindow
    case Found(w) => Found(Window(w.start + k, w.end + k, w.escape))
    case Unclosed(at) => Unclosed(at + k)
  }

  lemma {:induction false} ScanShifts(c: char, s: string, i: nat)
    requires i <= |s|
    ensures FromText([c] + s, i + 1) == Shifted(FromText(s, i), 1)
    decreases |s| - i
  {
    hide Closing;
    var src := [c] + s;
    if i < |s| {
      assert forall k :: 0 <= k < |s| ==> src[k + 1] == s[k];
      if EscapeAt(s, i) {
      } else if FragmentAt(s, i) {
        assert src[i + 3..] == s[i + 2..];
      } else {
        ScanShifts(c, s, i + 1);
      }
    }
  }

  /** A first character that opens nothing is copied. */
  lemma CopyOne(done: string, c: char, s: string, eval: Evaluator, show: Renderer)
    requires !EscapeAt([c] + s, 0) && !FragmentAt([c] + s, 0)
    ensures Concatenated(done, [c] + s, eval, show) == Concatenated(done + [c], s, eval, show)
  {
    hide FromText, Concatenated, Parse, Unescape;
    var src := [c] + s;
    PassOver(src, 0);
    ScanShifts(c, s, 0);
    Ends(done, src, eval, show);
    Ends(done + [c], s, eval, show);
    if Scan(s).Found? {
      ConcatenatedOne(done, src, eval, show);
      ConcatenatedOne(done + [c], s, eval, show);
      var w, v := Scan(s).window, Scan(src).window;
      assert src[..v.start] == [c] + s[..w.start];
      assert done + [c] + s[..w.start] == done + src[..v.start];
      assert src[v.start..v.end] == s[w.start..w.end] && src[v.end..] == s[w.end..];
      assert src[v.start + 1..v.end] == s[w.start + 1..w.end];
    } else {
      assert done + [c] + s == done + src;
    }
  }

  /** An escape at the start is undone. */
  lemma UndoOne(done: string, escape: string, s: string, eval: Evaluator, show: Renderer)
    requires IsEscape(escape) && (escape == "\\\\" || FragmentAt(escape, 1))
    ensures Concatenated(done, escape + s, eval, show) == Concatenated(done + Unescape(escape), s, eval, show)
  {
    hide Concatenated, Parse, Unescape;
    var src := escape + s;
    assert src[0] == escape[0] && src[1] == escape[1] && (|escape| == 3 ==> src[2] == escape[2]);
    assert Scan(src) == Found(Window(0, |escape|, true));
    ConcatenatedOne(done, src, eval, show);
    assert src[0..|escape|] == escape && src[|escape|..] == s;
    assert done + src[..0] == done;
  }

  lemma EscapedOpensNothing(t: string)
    requires t != "" && t[0] != '\\' && !FragmentAt(t, 0)
    ensures Escaped(t) == [t[0]] + Escaped(t[1..])
    ensures !EscapeAt(Escaped(t), 0) && !FragmentAt(Escaped(t), 0)
  {}

  lemma Appended(done: string, head: string, t: string)
    requires head <= t
    ensures done + head + t[|head|..] == done + t
  {
    assert t == head + t[|head|..];
  }

  lemma {:induction false} EscapedReads(done: string, t: string, eval: Evaluator, show: Renderer)
    ensures Concatenated(done, Escaped(t), eval, show) == Ok(Str(done + t))
    decreases |t|
  {
    hide Concatenated, Parse, Scan, Unescape;
    if t == "" {
      EmptyReads(done, eval, show);
    } else if t[0] == '\\' {
      UndoOne(done, "\\\\", Escaped(t[1..]), eval, show);
      Unescaped("\\\\");
      EscapedReads(done + "\\", t[1..], eval, show);
      Appended(done, "\\", t);
    } else if FragmentAt(t, 0) {
      var escape := ['\\', '$', t[1]];
      UndoOne(done, escape, Escaped(t[2..]), eval, show);
      Unescaped(escape);
      EscapedReads(done + ['$', t[1]], t[2..], eval, show);
      Appended(done, ['$', t[1]], t);
    } else {
      EscapedOpensNothing(t);
      CopyOne(done, t[0], Escaped(t[1..]), eval, show);
      EscapedReads(done + [t[0]], t[1..], eval, show);
      Appended(done, [t[0]], t);
    }
  }

  lemma EmptyReads(done: string, eval: Evaluator, show: Renderer)
    ensures Concatenated(done, "", eval, show) == Ok(Str(done + ""))
  {
    hide Concatenated, Parse, Scan;
    Ends(done, "", eval, show);
    assert Scan("") == NoWindow by { ScanMeaning(""); }
  }

  lemma Unescaped(escape: string)
    requires escape == "\\\\" || (|escape| == 3 && escape[0] == '\\' && escape[1] == '$')
    ensures Unescape(escape) == escape[1..]
  {}

  /** Interpolating an escaped text gives the text back, whatever the evaluator would do. */
  lemma EscapedRoundTrip(t: string, eval: Evaluator, show: Renderer)
    ensures Meaning(Escaped(t), eval, show) == Ok(Str(t))
  {
    hide Concatenated, Parse, Scan;
    EscapedReads("", t, eval, show);
    assert "" + t == t;
    ScanMeaning(Escaped(t));
    EscapedStarts(t);
  }

  lemma EscapedStarts(t: string)
    ensures !FragmentAt(Escaped(t), 0)
  {
    if t != "" && t[0] != '\\' && !FragmentAt(t, 0) {
      EscapedOpensNothing(t);
    }
  }

  // ---- evaluation ----

  /** Whether a text holds `$(` or `${` at all. */
  predicate NeedsParsing(s: string) {
    exists i :: 0 <= i < |s| && FragmentAt(s, i)
  }

  /** Evaluates file content: text that needs no parsing is returned untouched. */
  method EvalContent(expr: string, eval: Evaluator, show: Renderer) returns (r: Result<Value>)
    ensures r == if NeedsParsing(expr) then Meaning(expr, eval, show) else Ok(Str(expr))
  {
    if !NeedsParsing(expr) {
      return Ok(Str(expr));
    }
    r := Run(expr, eval, show);
  }

  lemma {:induction false} EscapedNeedsParsing(t: string)
    ensures NeedsParsing(Escaped(t)) <==> NeedsParsing(t)
    decreases |t|
  {
    if t != "" {
      if t[0] == '\\' {
        EscapedNeedsParsing(t[1..]);
        NeedsParsingFrom("\\\\", Escaped(t[1..]));
        NeedsParsingFrom("\\", t[1..]);
        assert t == "\\" + t[1..];
      } else if FragmentAt(t, 0) {
        assert FragmentAt(Escaped(t), 1);
      } else {
        EscapedOpensNothing(t);
        EscapedNeedsParsing(t[1..]);
        NeedsParsingFrom([t[0]], Escaped(t[1..]));
        NeedsParsingFrom([t[0]], t[1..]);
        assert t == [t[0]] + t[1..];
      }
    }
  }

  /** A prefix that opens nothing does not matter. */
  lemma NeedsParsingFrom(prefix: string, s: string)
    requires forall i :: 0 <= i < |prefix| ==> !FragmentAt(prefix + s, i)
    ensures NeedsParsing(prefix + s) <==> NeedsParsing(s)
  {
    var src := prefix + s;
    assert forall k :: 0 <= k < |s| ==> src[k + |prefix|] == s[k];
    if NeedsParsing(s) {
      var i :| 0 <= i < |s| && FragmentAt(s, i);
      assert FragmentAt(src, i + |prefix|);
    }
    if NeedsParsing(src) {
      var i :| 0 <= i < |src| && FragmentAt(src, i);
      assert FragmentAt(s, i - |prefix|);
    }
  }

  lemma {:induction false} EscapedSame(t: string)
    ensures !NeedsParsing(t) ==> (Escaped(t) == t <==> '\\' !in t)
    ensures |Escaped(t)| >= |t|
    ensures '\\' in t ==> |Escaped(t)| > |t|
    decreases |t|
  {
    if t != "" {
      assert t == [t[0]] + t[1..];
      if t[0] == '\\' {
        EscapedSame(t[1..]);
      } else if FragmentAt(t, 0) {
        EscapedSame(t[2..]);
        assert t == ['$', t[1]] + t[2..];
      } else {
        NeedsParsingFrom([t[0]], t[1..]);
        EscapedSame(t[1..]);
      }
    }
  }

  /**
   * Evaluation as a whole undoes escaping exactly when the text needs parsing or has no backslash: a text
   * without an opening is returned with its doubled backslashes as they are.
   */
  lemma EscapedContent(t: string, eval: Evaluator, show: Renderer)
    ensures var e := Escaped(t);
            var r := if NeedsParsing(e) then Meaning(e, eval, show) else Ok(Str(e));
            r == Ok(Str(t)) <==> NeedsParsing(t) || '\\' !in t
  {
    hide Meaning, Escaped;
    EscapedNeedsParsing(t);
    EscapedRoundTrip(t, eval, show);
    EscapedSame(t);
  }
}
