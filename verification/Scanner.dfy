/**
 * The expression scanner: a pushdown automaton that finds the first `$(...)`, `${...}` or backslash escape
 * in a text. Its specification is a grammar; positions count characters.
 */
module Scanner {
  import opened Common

  /** The range [start, end) of one fragment or escape. */
  datatype Window = Window(start: nat, end: nat, escape: bool)

  datatype Outcome = NoWindow | Found(window: Window) | Unclosed(at: nat)

  predicate Opens(c: char) {
    c == '(' || c == '{'
  }

  predicate Quotes(c: char) {
    c == '\'' || c == '"'
  }

  function CloserOf(open: char): char {
    if open == '(' then ')' else '}'
  }

  // ---- the grammar of a fragment ----

  datatype QuotedChar = Bare(c: char) | Escaped(c: char)

  datatype Item = Plain(c: char) | Group(items: seq<Item>) | Quoted(mark: char, body: seq<QuotedChar>)

  function BodyText(body: seq<QuotedChar>): string {
    if body == [] then ""
    else (match body[0] case Bare(c) => [c] case Escaped(c) => ['\\', c]) + BodyText(body[1..])
  }

  function ItemText(item: Item, open: char): string {
    match item
    case Plain(c) => [c]
    case Group(items) => [open] + ItemsText(items, open) + [CloserOf(open)]
    case Quoted(mark, body) => [mark] + BodyText(body) + [mark]
  }

  function ItemsText(items: seq<Item>, open: char): string {
    if items == [] then "" else ItemText(items[0], open) + ItemsText(items[1..], open)
  }

  /** Delimiters and quotes appear only as such; inside quotes only a backslash and the mark are special. */
  predicate WellItem(item: Item, open: char) {
    match item
    case Plain(c) => c != open && c != CloserOf(open) && !Quotes(c)
    case Group(items) => WellItems(items, open)
    case Quoted(mark, body) =>
      Quotes(mark) && forall i :: 0 <= i < |body| && body[i].Bare? ==> body[i].c != mark && body[i].c != '\\'
  }

  predicate WellItems(items: seq<Item>, open: char) {
    items == [] || (WellItem(items[0], open) && WellItems(items[1..], open))
  }

  function FragmentText(items: seq<Item>, open: char): string {
    ['$', open] + ItemsText(items, open) + [CloserOf(open)]
  }

  predicate IsFragment(text: string, items: seq<Item>, open: char) {
    WellItems(items, open) && text == FragmentText(items, open)
  }

  predicate StartsWith(text: string, items: seq<Item>, open: char) {
    WellItems(items, open) && FragmentText(items, open) <= text
  }

  // ---- reading a fragment left to right ----

  /** Where a fragment's reader stands: in code at a depth, inside quotes, or after a backslash in quotes. */
  datatype Lex = Code(depth: nat) | Quote(depth: nat, mark: char) | Slash(depth: nat, mark: char)

  function Next(lex: Lex, c: char, open: char): Lex {
    match lex
    case Code(depth) =>
      if c == open then Code(depth + 1)
      else if c == CloserOf(open) then (if depth > 0 then Code(depth - 1) else lex)
      else if Quotes(c) then Quote(depth, c)
      else lex
    case Quote(depth, mark) =>
      if c == mark then Code(depth) else if c == '\\' then Slash(depth, mark) else lex
    case Slash(depth, mark) => Quote(depth, mark)
  }

  /** How many characters close the fragment being read, if it closes. */
  function Closing(s: string, lex: Lex, open: char): (n: Option<nat>)
    ensures n.Some? ==> 0 < n.value <= |s|
  {
    if s == "" then None
    else
      var next := Next(lex, s[0], open);
      if next == Code(0) then Some(1)
      else match Closing(s[1..], next, open)
        case None => None
        case Some(n) => Some(n + 1)
  }

  function Later(n: Option<nat>, k: nat): Option<nat> {
    match n case None => None case Some(m) => Some(m + k)
  }

  lemma ReadOne(c: char, tail: string, lex: Lex, open: char)
    ensures Closing([c] + tail, lex, open)
         == if Next(lex, c, open) == Code(0) then Some(1) else Later(Closing(tail, Next(lex, c, open), open), 1)
  {
    assert ([c] + tail)[1..] == tail;
  }

  lemma {:induction false} ThroughBody(body: seq<QuotedChar>, depth: nat, mark: char, open: char, rest: string)
    requires forall i :: 0 <= i < |body| && body[i].Bare? ==> body[i].c != mark && body[i].c != '\\'
    requires mark != '\\'
    ensures Closing(BodyText(body) + rest, Quote(depth, mark), open) ==
        Later(Closing(rest, Quote(depth, mark), open), |BodyText(body)|)
  {
    hide Closing;
    if body == [] {
      assert BodyText(body) + rest == rest;
    } else {
      var tail := BodyText(body[1..]) + rest;
      ThroughBody(body[1..], depth, mark, open, rest);
      if body[0].Bare? {
        assert BodyText(body) + rest == [body[0].c] + tail;
        ReadOne(body[0].c, tail, Quote(depth, mark), open);
      } else {
        assert BodyText(body) + rest == ['\\'] + ([body[0].c] + tail);
        ReadOne('\\', [body[0].c] + tail, Quote(depth, mark), open);
        ReadOne(body[0].c, tail, Slash(depth, mark), open);
      }
    }
  }

  lemma {:induction false} ThroughItem(item: Item, depth: nat, open: char, rest: string)
    requires Opens(open) && WellItem(item, open) && depth > 0
    ensures Closing(ItemText(item, open) + rest, Code(depth), open) ==
        Later(Closing(rest, Code(depth), open), |ItemText(item, open)|)
  {
    hide Closing;
    match item
    case Plain(c) =>
      ReadOne(c, rest, Code(depth), open);
    case Group(items) =>
      var text, close := ItemsText(items, open), [CloserOf(open)] + rest;
      assert ItemText(item, open) + rest == [open] + (text + close);
      ReadOne(open, text + close, Code(depth), open);
      ThroughItems(items, depth + 1, open, close);
      ReadOne(CloserOf(open), rest, Code(depth + 1), open);
    case Quoted(mark, body) =>
      var text, close := BodyText(body), [mark] + rest;
      assert ItemText(item, open) + rest == [mark] + (text + close);
      ReadOne(mark, text + close, Code(depth), open);
      ThroughBody(body, depth, mark, open, close);
      ReadOne(mark, rest, Quote(depth, mark), open);
  }

  /** Well-formed items are read over at any depth without closing it. */
  lemma {:induction false} ThroughItems(items: seq<Item>, depth: nat, open: char, rest: string)
    requires Opens(open) && WellItems(items, open) && depth > 0
    ensures Closing(ItemsText(items, open) + rest, Code(depth), open) ==
        Later(Closing(rest, Code(depth), open), |ItemsText(items, open)|)
  {
    hide Closing;
    if items == [] {
      assert ItemsText(items, open) + rest == rest;
    } else {
      var tail := ItemsText(items[1..], open) + rest;
      assert ItemsText(items, open) + rest == ItemText(items[0], open) + tail;
      ThroughItem(items[0], depth, open, tail);
      ThroughItems(items[1..], depth, open, rest);
    }
  }

  /** What is read until the mark closes a quoted literal is a quoted literal's body. */
  lemma {:induction false} QuoteIsBody(s: string, depth: nat, mark: char, open: char)
    returns (body: seq<QuotedChar>, rest: string)
    requires depth > 0 && Closing(s, Quote(depth, mark), open).Some?
    ensures s == BodyText(body) + [mark] + rest
    ensures forall i :: 0 <= i < |body| && body[i].Bare? ==> body[i].c != mark && body[i].c != '\\'
    ensures Closing(s, Quote(depth, mark), open) == Later(Closing(rest, Code(depth), open), |BodyText(body)| + 1)
    decreases |s|
  {
    hide Closing, BodyText;
    assert s != "" by { NotEmptyIn(s, Quote(depth, mark), open); }
    assert s == [s[0]] + s[1..];
    ReadOne(s[0], s[1..], Quote(depth, mark), open);
    if s[0] == mark {
      body, rest := [], s[1..];
      NoBody();
    } else if s[0] == '\\' {
      assert s[1..] != "" by { NotEmptyIn(s[1..], Slash(depth, mark), open); }
      assert s[1..] == [s[1]] + s[2..];
      ReadOne(s[1], s[2..], Slash(depth, mark), open);
      var more;
      more, rest := QuoteIsBody(s[2..], depth, mark, open);
      body := [Escaped(s[1])] + more;
      OneMoreChar(Escaped(s[1]), more);
    } else {
      var more;
      more, rest := QuoteIsBody(s[1..], depth, mark, open);
      body := [Bare(s[0])] + more;
      OneMoreChar(Bare(s[0]), more);
    }
  }

  lemma NotEmptyIn(s: string, lex: Lex, open: char)
    requires Closing(s, lex, open).Some?
    ensures s != ""
  {}

  lemma NoBody()
    ensures BodyText([]) == ""
  {}

  lemma OneMoreChar(c: QuotedChar, more: seq<QuotedChar>)
    ensures BodyText([c] + more) == (match c case Bare(b) => [b] case Escaped(b) => ['\\', b]) + BodyText(more)
  {
    assert ([c] + more)[1..] == more;
  }

  lemma FirstItem(s: string, depth: nat, open: char, first: Item, after: string)
    requires Opens(open) && depth > 0 && WellItem(first, open) && s == ItemText(first, open) + after
    ensures Closing(s, Code(depth), open) == Later(Closing(after, Code(depth), open), |ItemText(first, open)|)
  {
    ThroughItem(first, depth, open, after);
  }

  lemma OneMore(first: Item, more: seq<Item>, open: char)
    ensures ItemsText([first] + more, open) == ItemText(first, open) + ItemsText(more, open)
    ensures WellItem(first, open) && WellItems(more, open) ==> WellItems([first] + more, open)
  {
    assert ([first] + more)[1..] == more;
  }

  /** What is read until the depth falls by one is a list of items and a closing delimiter. */
  lemma {:induction false} ReadIsItems(s: string, depth: nat, open: char) returns (items: seq<Item>, rest: string)
    requires Opens(open) && depth > 0 && Closing(s, Code(depth), open).Some?
    ensures WellItems(items, open) && s == ItemsText(items, open) + [CloserOf(open)] + rest
    ensures Closing(s, Code(depth), open)
         == if depth == 1 then Some(|ItemsText(items, open)| + 1)
            else Later(Closing(rest, Code(depth - 1), open), |ItemsText(items, open)| + 1)
    decreases |s|, 1
  {
    hide Closing, ItemsText, WellItems;
    assert s != "" by { NotEmptyIn(s, Code(depth), open); }
    assert s == [s[0]] + s[1..];
    ReadOne(s[0], s[1..], Code(depth), open);
    if s[0] == CloserOf(open) {
      items, rest := [], s[1..];
      NoItems(open);
      return;
    }
    var first, after := FirstOf(s, depth, open);
    FirstItem(s, depth, open, first, after);
    var more;
    more, rest := ReadIsItems(after, depth, open);
    items := [first] + more;
    OneMore(first, more, open);
  }

  lemma NoItems(open: char)
    ensures ItemsText([], open) == "" && WellItems([], open)
  {}

  /** The first item of what is read, and what follows it. */
  lemma {:induction false} FirstOf(s: string, depth: nat, open: char) returns (first: Item, after: string)
    requires Opens(open) && depth > 0 && Closing(s, Code(depth), open).Some? && s[0] != CloserOf(open)
    ensures WellItem(first, open) && s == ItemText(first, open) + after && |after| < |s|
    decreases |s|, 0
  {
    hide Closing, ItemsText, WellItems;
    assert s == [s[0]] + s[1..];
    ReadOne(s[0], s[1..], Code(depth), open);
    if s[0] == open {
      var inner;
      inner, after := ReadIsItems(s[1..], depth + 1, open);
      first := Group(inner);
    } else if Quotes(s[0]) {
      var body;
      body, after := QuoteIsBody(s[1..], depth, s[0], open);
      first := Quoted(s[0], body);
    } else {
      first, after := Plain(s[0]), s[1..];
    }
  }

  // ---- the first opening in a text ----

  predicate EscapeAt(src: string, i: nat) {
    i + 1 < |src| && src[i] == '\\'
  }

  predicate FragmentAt(src: string, i: nat) {
    i + 1 < |src| && src[i] == '$' && Opens(src[i + 1])
  }

  function EscapeEnd(src: string, i: nat): nat
    requires EscapeAt(src, i)
  {
    if FragmentAt(src, i + 1) then i + 3 else i + 2
  }

  function FromFragment(src: string, at: nat, pos: nat, lex: Lex): Outcome
    requires at + 1 < |src| && pos <= |src|
  {
    match Closing(src[pos..], lex, src[at + 1])
    case None => Unclosed(at)
    case Some(n) => Found(Window(at, pos + n, false))
  }

  function FromText(src: string, i: nat): Outcome
    requires i <= |src|
    decreases |src| - i
  {
    if i == |src| then NoWindow
    else if EscapeAt(src, i) then Found(Window(i, EscapeEnd(src, i), true))
    else if FragmentAt(src, i) then FromFragment(src, i, i + 2, Code(1))
    else FromText(src, i + 1)
  }

  /** A text's first character, unless it opens something, is passed over. */
  lemma PassOver(src: string, i: nat)
    requires i < |src|
    ensures !EscapeAt(src, i) && !FragmentAt(src, i) ==> FromText(src, i) == FromText(src, i + 1)
    ensures i + 1 == |src| ==> FromText(src, i) == NoWindow
  {}

  lemma ReadOn(src: string, at: nat, pos: nat, lex: Lex)
    requires at + 1 < |src| && pos < |src|
    ensures var next := Next(lex, src[pos], src[at + 1]);
            FromFragment(src, at, pos, lex) ==
              if next == Code(0) then Found(Window(at, pos + 1, false)) else FromFragment(src, at, pos + 1, next)
  {
    assert src[pos..] == [src[pos]] + src[pos + 1..];
    ReadOne(src[pos], src[pos + 1..], lex, src[at + 1]);
  }

  /** The first escape or fragment of a text. */
  function Scan(src: string): Outcome {
    FromText(src, 0)
  }

  ghost predicate NothingBefore(src: string, from: nat, to: nat) {
    forall i :: from <= i < to ==> !EscapeAt(src, i) && !FragmentAt(src, i)
  }

  /** The first `n` characters are a well-formed fragment, and the only one that starts the text. */
  ghost predicate Matched(text: string, open: char, n: nat) {
    && n <= |text| && (exists items :: IsFragment(text[..n], items, open))
    && forall items :: StartsWith(text, items, open) ==> |FragmentText(items, open)| == n
  }

  ghost predicate NeverMatched(text: string, open: char) {
    forall items :: !StartsWith(text, items, open)
  }

  /** The fragment at `at` runs to `end`. */
  ghost predicate FragmentIs(src: string, at: nat, end: nat) {
    at + 1 < end <= |src| && Matched(src[at..], src[at + 1], end - at)
  }

  ghost predicate NeverCloses(src: string, at: nat)
    requires at + 1 < |src|
  {
    NeverMatched(src[at..], src[at + 1])
  }

  lemma PrefixCloses(src: string, at: nat, items: seq<Item>)
    requires FragmentAt(src, at) && StartsWith(src[at..], items, src[at + 1])
    ensures Closing(src[at + 2..], Code(1), src[at + 1]) == Some(|ItemsText(items, src[at + 1])| + 1)
  {
    var open := src[at + 1];
    var text := FragmentText(items, open);
    var rest := src[at + |text|..];
    assert src[at..] == text + rest;
    var close := [CloserOf(open)] + rest;
    assert src[at + 2..] == src[at..][2..] == ItemsText(items, open) + close;
    ThroughItems(items, 1, open, close);
  }

  lemma FragmentMeaning(src: string, at: nat)
    requires FragmentAt(src, at)
    ensures match FromFragment(src, at, at + 2, Code(1))
            case NoWindow => false
            case Found(w) => w.start == at && !w.escape && FragmentIs(src, at, w.end)
            case Unclosed(i) => i == at && NeverCloses(src, at)
  {
    var open := src[at + 1];
    var s := src[at + 2..];
    forall items | StartsWith(src[at..], items, open)
      ensures Closing(s, Code(1), open) == Some(|FragmentText(items, open)| - 2)
    {
      PrefixCloses(src, at, items);
    }
    if Closing(s, Code(1), open).Some? {
      var items, rest := ReadIsItems(s, 1, open);
      var end := at + 2 + Closing(s, Code(1), open).value;
      assert src[at..] == ['$', open] + s;
      assert src[at..][..end - at] == FragmentText(items, open);
      assert IsFragment(src[at..][..end - at], items, open);
    }
  }

  /** What a scan result says about the text, from position `i` on. */
  ghost predicate Means(src: string, i: nat, r: Outcome) {
    match r
    case NoWindow => NothingBefore(src, i, |src|)
    case Found(w) =>
      && i <= w.start && NothingBefore(src, i, w.start)
      && if w.escape then EscapeAt(src, w.start) && w.end == EscapeEnd(src, w.start)
         else FragmentAt(src, w.start) && FragmentIs(src, w.start, w.end)
    case Unclosed(at) => i <= at && NothingBefore(src, i, at) && FragmentAt(src, at) && NeverCloses(src, at)
  }

  lemma {:induction false} FromTextMeaning(src: string, i: nat)
    requires i <= |src|
    ensures Means(src, i, FromText(src, i))
    decreases |src| - i
  {
    hide FragmentIs, NeverCloses, FromFragment;
    if i < |src| {
      if !EscapeAt(src, i) && FragmentAt(src, i) {
        FragmentMeaning(src, i);
      } else if !EscapeAt(src, i) {
        FromTextMeaning(src, i + 1);
      }
    }
  }

  /**
   * The scan finds the leftmost escape or fragment; a fragment runs exactly to its matching close, delimiters
   * counting only outside quotes; and it fails exactly when the leftmost opening is a fragment that never closes.
   */
  lemma ScanMeaning(src: string)
    ensures Means(src, 0, Scan(src))
  {
    FromTextMeaning(src, 0);
  }

  /** Nothing else has that meaning. */
  lemma OnlyOutcome(src: string, r: Outcome)
    requires Means(src, 0, r)
    ensures r == Scan(src)
  {
    hide FromText, Matched, NeverMatched, EscapeEnd;
    ScanMeaning(src);
    var at, found := StartOf(src, r), StartOf(src, Scan(src));
    assert at < |src| ==> EscapeAt(src, at) || FragmentAt(src, at);
    assert found < |src| ==> EscapeAt(src, found) || FragmentAt(src, found);
    if at < |src| && FragmentAt(src, at) {
      SameMatch(src[at..], src[at + 1]);
    }
  }

  function StartOf(src: string, r: Outcome): nat {
    match r
    case NoWindow => |src|
    case Found(w) => w.start
    case Unclosed(at) => at
  }

  /** A text starts with one fragment at most. */
  lemma SameMatch(text: string, open: char)
    ensures forall m: nat, n: nat :: Matched(text, open, m) && Matched(text, open, n) ==> m == n
    ensures forall n: nat :: Matched(text, open, n) ==> !NeverMatched(text, open)
  {
    forall n: nat | Matched(text, open, n)
      ensures exists items :: StartsWith(text, items, open) && |FragmentText(items, open)| == n
    {
      var items :| IsFragment(text[..n], items, open);
      assert StartsWith(text, items, open);
    }
  }

  // ---- what counts within a fragment, character by character ----

  /** A whole fragment is found as such. */
  lemma FragmentScans(items: seq<Item>, open: char)
    requires Opens(open) && WellItems(items, open)
    ensures Scan(FragmentText(items, open)) == Found(Window(0, |FragmentText(items, open)|, false))
  {
    hide WellItems, ItemsText, Closing;
    var src := FragmentText(items, open);
    assert src[0..] == src && FragmentAt(src, 0) && !EscapeAt(src, 0);
    PrefixCloses(src, 0, items);
  }

  /** A parenthesis or a brace, with what closes it. */
  predicate Encloses(open: char, close: char) {
    (open == '(' && close == ')') || (open == '{' && close == '}')
  }

  function Bares(text: string): (body: seq<QuotedChar>)
    ensures |body| == |text| && forall i :: 0 <= i < |body| ==> body[i] == Bare(text[i])
  {
    seq(|text|, i requires 0 <= i < |text| => Bare(text[i]))
  }

  lemma {:induction false} BaresText(text: string)
    ensures BodyText(Bares(text)) == text
  {
    if text != "" {
      BaresText(text[1..]);
      assert Bares(text)[1..] == Bares(text[1..]);
    }
  }

  /** Between two quotes of one kind nothing closes a fragment. */
  lemma QuotesHide(open: char, close: char, mark: char, text: string)
    requires Encloses(open, close) && (mark == '\'' || mark == '"') && mark !in text && '\\' !in text
    ensures Scan(['$', open, mark] + text + [mark, close]) == Found(Window(0, |text| + 5, false))
  {
    hide Scan;
    BaresText(text);
    var item := Quoted(mark, Bares(text));
    OneItem(item, open);
    FragmentScans([item], open);
    assert FragmentText([item], open) == ['$', open, mark] + text + [mark, close];
  }

  /** Within them a backslash hides whatever follows it. */
  lemma BackslashHides(open: char, close: char, mark: char, c: char)
    requires Encloses(open, close) && (mark == '\'' || mark == '"')
    ensures Scan(['$', open, mark, '\\', c, mark, close]) == Found(Window(0, 7, false))
  {
    hide Scan;
    var item := Quoted(mark, [Escaped(c)]);
    OneMoreChar(Escaped(c), []);
    NoBody();
    assert [Escaped(c)] + [] == [Escaped(c)] && BodyText([Escaped(c)]) == ['\\', c];
    OneItem(item, open);
    FragmentScans([item], open);
    assert FragmentText([item], open) == ['$', open, mark, '\\', c, mark, close];
  }

  /** Groups of the same kind nest; any other character is passed over. */
  lemma GroupsNest(open: char, close: char, c: char)
    requires Encloses(open, close)
    ensures Scan(['$', open, open, close, close]) == Found(Window(0, 5, false))
    ensures c !in {open, close, '\'', '"'} ==> Scan(['$', open, c, close]) == Found(Window(0, 4, false))
  {
    hide Scan, ItemsText, WellItems;
    NoItems(open);
    OneItem(Group([]), open);
    FragmentScans([Group([])], open);
    assert FragmentText([Group([])], open) == ['$', open, open, close, close];
    if c !in {open, close, '\'', '"'} {
      OneItem(Plain(c), open);
      FragmentScans([Plain(c)], open);
      assert FragmentText([Plain(c)], open) == ['$', open, c, close];
    }
  }

  lemma OneItem(item: Item, open: char)
    requires WellItem(item, open)
    ensures WellItems([item], open) && ItemsText([item], open) == ItemText(item, open)
  {
    NoItems(open);
    assert [item][1..] == [];
    assert ItemText(item, open) + "" == ItemText(item, open);
  }

  // ---- the automaton ----

  datatype State =
    | TextState | DollarState | ParenState | BraceState | SingleQuoteState | DoubleQuoteState | BackslashState

  /** What the state stack stands for. */
  datatype Mode = InText | AfterSlash | AfterDollar | Inside(open: char, lex: Lex)

  function GroupState(open: char): State {
    if open == '(' then ParenState else BraceState
  }

  function QuoteState(mark: char): State {
    if mark == '\'' then SingleQuoteState else DoubleQuoteState
  }

  function Groups(open: char, depth: nat): (stack: seq<State>)
    ensures |stack| == depth + 2
  {
    [TextState, DollarState] + seq(depth, _ => GroupState(open))
  }

  /** The only shapes the stack ever has. */
  function StackOf(mode: Mode): (stack: seq<State>)
    ensures |stack| > 0
  {
    match mode
    case InText => [TextState]
    case AfterSlash => [TextState, BackslashState]
    case AfterDollar => [TextState, DollarState]
    case Inside(open, Code(depth)) => Groups(open, depth)
    case Inside(open, Quote(depth, mark)) => Groups(open, depth) + [QuoteState(mark)]
    case Inside(open, Slash(depth, mark)) => Groups(open, depth) + [QuoteState(mark), BackslashState]
  }

  lemma GroupsGrow(open: char, depth: nat)
    ensures Groups(open, depth) + [GroupState(open)] == Groups(open, depth + 1)
    ensures Groups(open, depth + 1)[..depth + 2] == Groups(open, depth)
    ensures Groups(open, depth)[depth + 1] == if depth == 0 then DollarState else GroupState(open)
  {}

  /** What pushing and popping do to the stack inside a group. */
  lemma StacksOf(open: char, depth: nat)
    requires depth > 0
    ensures var stack := StackOf(Inside(open, Code(depth)));
            && |stack| > 1
            && stack + [GroupState(open)] == StackOf(Inside(open, Code(depth + 1)))
            && stack[..|stack| - 1] == StackOf(Inside(open, Code(depth - 1)))
            && stack[|stack| - 2] == (if depth == 1 then DollarState else GroupState(open))
            && forall mark :: stack + [QuoteState(mark)] == StackOf(Inside(open, Quote(depth, mark)))
  {
    GroupsGrow(open, depth);
    GroupsGrow(open, depth - 1);
  }

  class ExprScanner {
    const src: string
    var stack: seq<State>
    var pos: nat
    var fragStart: nat
    var escStart: nat
    ghost var mode: Mode

    constructor (src: string)
      ensures this.src == src && Valid() && Ahead() == Scan(src)
    {
      this.src := src;
      stack, pos, fragStart, escStart := [TextState], 0, 0, 0;
      mode := InText;
    }

    ghost predicate Valid()
      reads this
    {
      && pos <= |src| && stack == StackOf(mode)
      && match mode
         case InText => true
         case AfterSlash => pos == escStart + 1 && src[escStart] == '\\'
         case AfterDollar => pos == fragStart + 1 && src[fragStart] == '$'
         case Inside(open, lex) =>
           && fragStart + 2 <= pos && FragmentAt(src, fragStart) && open == src[fragStart + 1] && lex.depth > 0
           && (lex.Code? || Quotes(lex.mark))
    }

    /** What the scan will report from here. */
    ghost function Ahead(): Outcome
      requires Valid()
      reads this
    {
      match mode
      case InText => FromText(src, pos)
      case AfterSlash => if pos == |src| then NoWindow else Found(Window(escStart, EscapeEnd(src, escStart), true))
      case AfterDollar =>
        if pos < |src| && Opens(src[pos]) then FromFragment(src, fragStart, pos + 1, Code(1)) else FromText(src, pos)
      case Inside(_, lex) => FromFragment(src, fragStart, pos, lex)
    }

    /** A step that reports nothing leaves the report ahead unchanged, and moves on or drops a dollar. */
    twostate predicate Stepped()
      requires old(Valid())
      reads this
    {
      && Valid() && Ahead() == old(Ahead())
      && (pos > old(pos) || (pos == old(pos) && old(mode) == AfterDollar && mode == InText))
    }

    function Top(): State
      requires |stack| > 0
      reads this
    {
      stack[|stack| - 1]
    }

    method Push(state: State)
      modifies this`stack
      ensures stack == old(stack) + [state]
    {
      stack := stack + [state];
    }

    method Pop()
      modifies this`stack
      ensures stack == if |old(stack)| > 1 then old(stack)[..|old(stack)| - 1] else old(stack)
    {
      if |stack| > 1 {
        stack := stack[..|stack| - 1];
      }
    }

    method Step() returns (found: Option<Window>)
      requires Valid() && pos < |src|
      modifies this
      ensures if found.Some? then old(Ahead()) == Found(found.value) else Stepped()
    {
      hide FromText, FromFragment, EscapeEnd, Closing;
      var c := src[pos];
      match Top()
      case TextState => StepText(c); found := None;
      case BackslashState => found := StepBackslash(c);
      case DollarState => StepDollar(c); found := None;
      case ParenState => found := StepGroup(c, '(', ')');
      case BraceState => found := StepGroup(c, '{', '}');
      case SingleQuoteState => StepQuoted(c, '\''); found := None;
      case DoubleQuoteState => StepQuoted(c, '"'); found := None;
    }

    method StepText(c: char)
      requires Valid() && pos < |src| && c == src[pos] && mode == InText
      modifies this
      ensures Stepped()
    {
      PassOver(src, pos);
      if c == '$' {
        fragStart := pos;
        Push(DollarState);
        mode := AfterDollar;
      } else if c == '\\' {
        escStart := pos;
        Push(BackslashState);
        mode := AfterSlash;
      }
      pos := pos + 1;
    }

    predicate OpensFragment()
      reads this
    {
      pos < |src| && (src[pos] == '(' || src[pos] == '{')
    }

    method StepBackslash(c: char) returns (found: Option<Window>)
      requires Valid() && pos < |src| && c == src[pos] && Top() == BackslashState
      modifies this
      ensures if found.Some? then old(Ahead()) == Found(found.value) else Stepped()
    {
      Pop();
      pos := pos + 1;
      if Top() != TextState {
        mode := Inside(mode.open, Quote(mode.lex.depth, mode.lex.mark));
        return None;
      }
      if c == '$' && OpensFragment() {
        pos := pos + 1;
      }
      return Some(Window(escStart, pos, true));
    }

    method StepDollar(c: char)
      requires Valid() && pos < |src| && c == src[pos] && Top() == DollarState
      modifies this
      ensures Stepped()
    {
      if c == '(' {
        Push(ParenState);
      } else if c == '{' {
        Push(BraceState);
      } else {
        Pop();
        mode := InText;
        return;
      }
      mode := Inside(c, Code(1));
      GroupsGrow(c, 0);
      pos := pos + 1;
    }

    /** A group state on top: inside that group, outside quotes. */
    lemma InGroup(open: char) returns (depth: nat)
      requires Valid() && Opens(open) && Top() == GroupState(open)
      ensures depth > 0 && mode == Inside(open, Code(depth))
    {
      depth := mode.lex.depth;
      GroupsGrow(mode.open, depth - 1);
    }

    method StepGroup(c: char, open: char, close: char) returns (found: Option<Window>)
      requires Valid() && pos < |src| && c == src[pos] && Opens(open) && close == CloserOf(open)
      requires Top() == GroupState(open)
      modifies this
      ensures if found.Some? then old(Ahead()) == Found(found.value) else Stepped()
    {
      hide FromFragment, FromText, Groups, StackOf;
      ghost var depth := InGroup(open);
      ReadOn(src, fragStart, pos, mode.lex);
      StacksOf(open, depth);
      var state := Top();
      pos := pos + 1;
      if c == open {
        Push(state);
        mode := Inside(open, Code(depth + 1));
      } else if c == close {
        Pop();
        if Top() == DollarState {
          return Some(Window(fragStart, pos, false));
        }
        mode := Inside(open, Code(depth - 1));
      } else if c == '\'' {
        Push(SingleQuoteState);
        mode := Inside(open, Quote(depth, c));
      } else if c == '"' {
        Push(DoubleQuoteState);
        mode := Inside(open, Quote(depth, c));
      }
      return None;
    }

    method StepQuoted(c: char, quote: char)
      requires Valid() && pos < |src| && c == src[pos] && Quotes(quote) && Top() == QuoteState(quote)
      modifies this
      ensures Stepped()
    {
      hide FromFragment, FromText;
      ghost var open, depth := mode.open, mode.lex.depth;
      GroupsGrow(open, depth - 1);
      assert mode == Inside(open, Quote(depth, quote));
      ReadOn(src, fragStart, pos, mode.lex);
      pos := pos + 1;
      if c == quote {
        Pop();
        mode := Inside(open, Code(depth));
      } else if c == '\\' {
        escStart := pos - 1;
        Push(BackslashState);
        mode := Inside(open, Slash(depth, quote));
      }
    }

    /** Whether the text ended inside a fragment. */
    method Unterminated() returns (r: Outcome)
      requires Valid() && pos == |src|
      ensures r == Ahead()
    {
      if |stack| <= 1 {
        return NoWindow;
      }
      if |stack| == 2 && (stack[1] == BackslashState || stack[1] == DollarState) {
        return NoWindow;
      }
      return Unclosed(fragStart);
    }
  }

  /** Finds the first fragment or escape. It always ends, also where a dollar is dropped without moving on. */
  method ScanFragment(src: string) returns (r: Outcome)
    ensures r == Scan(src) && Means(src, 0, r)
  {
    hide Scan, Means;
    ScanMeaning(src);
    var scanner := new ExprScanner(src);
    while scanner.pos < |src|
      invariant scanner.src == src && scanner.Valid() && scanner.Ahead() == Scan(src)
      decreases |src| - scanner.pos, if scanner.mode == AfterDollar then 1 else 0
    {
      var found := scanner.Step();
      if found.Some? {
        return Found(found.value);
      }
    }
    r := scanner.Unterminated();
  }
}
