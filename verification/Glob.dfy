/** Path patterns (src/core/src/instruction_applicability.rs): the tokenizer, the
    row-by-row matcher, the finite-boundary token intersection and the pair-state
    worklist, each proved against a description of the pattern language that
    mentions none of them.  A Dafny `char` is a Unicode scalar value, as a Rust one is. */
module Glob {

  datatype Token =
    | Star
    | Any
    | Literal(value: char)
    | Class(negated: bool, ranges: seq<(char, char)>)

  // ----- what one token accepts -----

  predicate InSomeRange(ranges: seq<(char, char)>, ch: char) {
    exists k :: 0 <= k < |ranges| && ranges[k].0 <= ch <= ranges[k].1
  }

  predicate Accepts(token: Token, ch: char) {
    match token
    case Star => true
    case Any => true
    case Literal(value) => value == ch
    case Class(negated, ranges) => InSomeRange(ranges, ch) != negated
  }

  // ----- the language of a token sequence -----

  function Flatten(pieces: seq<string>): string {
    if pieces == [] then "" else pieces[0] + Flatten(pieces[1..])
  }

  predicate Piece(token: Token, piece: string) {
    token.Star? || (|piece| == 1 && Accepts(token, piece[0]))
  }

  ghost predicate Splits(tokens: seq<Token>, pieces: seq<string>, text: string) {
    && |pieces| == |tokens|
    && Flatten(pieces) == text
    && forall k :: 0 <= k < |tokens| ==> Piece(tokens[k], pieces[k])
  }

  /** The text can be cut into one piece per token, each piece fitting its token. */
  ghost predicate InLanguage(tokens: seq<Token>, text: string) {
    exists pieces :: Splits(tokens, pieces, text)
  }

  lemma EmptyLanguage(text: string)
    ensures InLanguage([], text) <==> text == ""
  {
    if text == "" {
      assert Splits([], [], text);
    }
  }

  lemma FrontStarDrops(tokens: seq<Token>, text: string)
    requires tokens != [] && tokens[0].Star? && InLanguage(tokens, text)
    ensures InLanguage(tokens[1..], text) || (text != "" && InLanguage(tokens, text[1..]))
  {
    var pieces :| Splits(tokens, pieces, text);
    if pieces[0] == "" {
      assert Splits(tokens[1..], pieces[1..], text);
    } else {
      var shorter := [pieces[0][1..]] + pieces[1..];
      assert shorter[1..] == pieces[1..];
      assert text[1..] == pieces[0][1..] + Flatten(pieces[1..]);
      assert Splits(tokens, shorter, text[1..]);
    }
  }

  lemma FrontStarTakes(tokens: seq<Token>, text: string)
    requires tokens != [] && tokens[0].Star? && text != "" && InLanguage(tokens, text[1..])
    ensures InLanguage(tokens, text)
  {
    var pieces :| Splits(tokens, pieces, text[1..]);
    var longer := [[text[0]] + pieces[0]] + pieces[1..];
    assert longer[1..] == pieces[1..];
    assert Flatten(longer) == [text[0]] + text[1..] == text;
    assert Splits(tokens, longer, text);
  }

  lemma FrontStar(tokens: seq<Token>, text: string)
    requires tokens != [] && tokens[0].Star?
    ensures InLanguage(tokens, text) <==>
            InLanguage(tokens[1..], text) || (text != "" && InLanguage(tokens, text[1..]))
  {
    if InLanguage(tokens, text) {
      FrontStarDrops(tokens, text);
    }
    if InLanguage(tokens[1..], text) {
      var pieces :| Splits(tokens[1..], pieces, text);
      assert ([""] + pieces)[1..] == pieces;
      assert Splits(tokens, [""] + pieces, text);
    }
    if text != "" && InLanguage(tokens, text[1..]) {
      FrontStarTakes(tokens, text);
    }
  }

  lemma FrontSingle(tokens: seq<Token>, text: string)
    requires tokens != [] && !tokens[0].Star?
    ensures InLanguage(tokens, text) <==>
            text != "" && Accepts(tokens[0], text[0]) && InLanguage(tokens[1..], text[1..])
  {
    if InLanguage(tokens, text) {
      var pieces :| Splits(tokens, pieces, text);
      assert Piece(tokens[0], pieces[0]);
      assert text[1..] == Flatten(pieces[1..]);
      assert Splits(tokens[1..], pieces[1..], text[1..]);
    }
    if text != "" && Accepts(tokens[0], text[0]) && InLanguage(tokens[1..], text[1..]) {
      var pieces :| Splits(tokens[1..], pieces, text[1..]);
      var longer := [[text[0]]] + pieces;
      assert longer[1..] == pieces;
      assert Splits(tokens, longer, text);
    }
  }

  lemma {:induction false} FlattenLast(pieces: seq<string>, last: string)
    ensures Flatten(pieces + [last]) == Flatten(pieces) + last
  {
    if pieces == [] {
      assert [last][1..] == [];
    } else {
      assert (pieces + [last])[1..] == pieces[1..] + [last];
      FlattenLast(pieces[1..], last);
    }
  }

  /** A text belongs to a longer sequence when some suffix of it fits the last token. */
  ghost predicate Cut(tokens: seq<Token>, token: Token, text: string, cut: nat) {
    cut <= |text| && Piece(token, text[cut..]) && InLanguage(tokens, text[..cut])
  }

  lemma LastPiece(tokens: seq<Token>, token: Token, text: string) returns (cut: nat)
    requires InLanguage(tokens + [token], text)
    ensures Cut(tokens, token, text, cut)
  {
    var n := |tokens|;
    var pieces :| Splits(tokens + [token], pieces, text);
    var init, last := pieces[..n], pieces[n];
    assert pieces == init + [last];
    FlattenLast(init, last);
    cut := |Flatten(init)|;
    assert text[cut..] == last && text[..cut] == Flatten(init);
    assert Piece((tokens + [token])[n], last);
    assert Splits(tokens, init, text[..cut]) by {
      assert forall k :: 0 <= k < n ==> Piece((tokens + [token])[k], init[k]);
    }
  }

  lemma AddPiece(tokens: seq<Token>, token: Token, text: string, cut: nat)
    requires Cut(tokens, token, text, cut)
    ensures InLanguage(tokens + [token], text)
  {
    var pieces :| Splits(tokens, pieces, text[..cut]);
    FlattenLast(pieces, text[cut..]);
    assert text[..cut] + text[cut..] == text;
    assert Splits(tokens + [token], pieces + [text[cut..]], text);
  }

  lemma BackStar(tokens: seq<Token>, text: string)
    ensures InLanguage(tokens + [Star], text) <==>
            InLanguage(tokens, text) || (text != "" && InLanguage(tokens + [Star], text[..|text| - 1]))
  {
    if InLanguage(tokens + [Star], text) {
      var cut := LastPiece(tokens, Star, text);
      if cut == |text| {
        assert text[..cut] == text;
      } else {
        assert text[..|text| - 1][..cut] == text[..cut];
        AddPiece(tokens, Star, text[..|text| - 1], cut);
      }
    }
    if InLanguage(tokens, text) {
      assert text[..|text|] == text;
      AddPiece(tokens, Star, text, |text|);
    }
    if text != "" && InLanguage(tokens + [Star], text[..|text| - 1]) {
      var cut := LastPiece(tokens, Star, text[..|text| - 1]);
      assert text[..|text| - 1][..cut] == text[..cut];
      AddPiece(tokens, Star, text, cut);
    }
  }

  lemma BackSingle(tokens: seq<Token>, token: Token, text: string)
    requires !token.Star?
    ensures InLanguage(tokens + [token], text) <==>
            text != "" && Accepts(token, text[|text| - 1]) && InLanguage(tokens, text[..|text| - 1])
  {
    if InLanguage(tokens + [token], text) {
      var cut := LastPiece(tokens, token, text);
      assert cut == |text| - 1;
    }
    if text != "" && Accepts(token, text[|text| - 1]) && InLanguage(tokens, text[..|text| - 1]) {
      assert text[|text| - 1..] == [text[|text| - 1]];
      AddPiece(tokens, token, text, |text| - 1);
    }
  }

  // ----- the pattern grammar -----

  /** The members of a bracket body: `a-z` is a range, everything else stands for itself. */
  function Members(inner: string): seq<(char, char)> {
    if inner == "" then []
    else if |inner| >= 3 && inner[1] == '-' then [(inner[0], inner[2])] + Members(inner[3..])
    else [(inner[0], inner[0])] + Members(inner[1..])
  }

  function Inner(body: string): string {
    if body != "" && body[0] == '!' then body[1..] else body
  }

  /** A bracket body: after an optional `!` something follows, and only its first
      character may be a closing bracket. */
  predicate ClassBody(body: string) {
    Inner(body) != "" && ']' !in Inner(body)[1..]
  }

  /** What follows an opening bracket begins with a body and its closing bracket. */
  predicate Closes(rest: string) {
    exists n :: 0 <= n < |rest| && rest[n] == ']' && ClassBody(rest[..n])
  }

  predicate Segment(segment: string, rest: string, token: Token) {
    match token
    case Star => segment == "*"
    case Any => segment == "?"
    case Literal(value) =>
      segment == [value] && value !in "*?" && (value == '[' ==> !Closes(rest))
    case Class(negated, ranges) =>
      && |segment| >= 3 && segment[0] == '[' && segment[|segment| - 1] == ']'
      && var body := segment[1..|segment| - 1];
      && ClassBody(body)
      && negated == (body[0] == '!')
      && ranges == Members(Inner(body))
  }

  /** The pattern is a concatenation of segments, one per token. */
  ghost predicate Parses(pattern: string, tokens: seq<Token>)
    decreases |tokens|
  {
    if tokens == [] then pattern == ""
    else exists n :: 0 < n <= |pattern| && Segment(pattern[..n], pattern[n..], tokens[0])
                     && Parses(pattern[n..], tokens[1..])
  }

  function CloseFrom(rest: string, from: nat): (end: nat)
    requires from <= |rest|
    ensures from <= end <= |rest|
    ensures end < |rest| ==> rest[end] == ']'
    ensures forall k :: from <= k < end ==> rest[k] != ']'
    decreases |rest| - from
  {
    if from == |rest| || rest[from] == ']' then from else CloseFrom(rest, from + 1)
  }

  function BodyStart(rest: string): (start: nat)
    ensures start <= |rest| && start <= 1
  {
    if rest != "" && rest[0] == '!' then 1 else 0
  }

  /** Where the bracket opened just before `rest` closes, or `|rest|`. */
  function CloseAt(rest: string): (end: nat)
    ensures end <= |rest|
    ensures end < |rest| ==> BodyStart(rest) < end && rest[end] == ']'
  {
    var start := BodyStart(rest);
    CloseFrom(rest, if start < |rest| && rest[start] == ']' then start + 1 else start)
  }

  /** The token a nonempty pattern starts with. */
  function FirstToken(pattern: string): Token
    requires pattern != ""
  {
    if pattern[0] == '*' then Star
    else if pattern[0] == '?' then Any
    else if pattern[0] == '[' && CloseAt(pattern[1..]) < |pattern| - 1 then
      var rest := pattern[1..];
      Class(rest[0] == '!', Members(rest[BodyStart(rest)..CloseAt(rest)]))
    else Literal(pattern[0])
  }

  function SegmentLength(pattern: string): (n: nat)
    requires pattern != ""
    ensures 0 < n <= |pattern|
  {
    if FirstToken(pattern).Class? then CloseAt(pattern[1..]) + 2 else 1
  }

  function Tokenize(pattern: string): seq<Token> {
    if pattern == "" then []
    else [FirstToken(pattern)] + Tokenize(pattern[SegmentLength(pattern)..])
  }

  /** Bodies that end at a closing bracket end at the same one: the scan finds it. */
  lemma CloseIsTheBody(rest: string, n: nat)
    requires n < |rest| && rest[n] == ']'
    ensures ClassBody(rest[..n]) <==> n == CloseAt(rest)
  {
    var start, end := BodyStart(rest), CloseAt(rest);
    if ClassBody(rest[..n]) {
      assert Inner(rest[..n]) == rest[start..n];
      assert forall k :: start < k < n ==> rest[k] == Inner(rest[..n])[1..][k - start - 1];
      assert end == n;
    }
    if n == end {
      assert Inner(rest[..n]) == rest[start..n];
      assert forall k :: 0 <= k < n - start - 1 ==> rest[start..n][1..][k] == rest[start + 1 + k];
    }
  }

  lemma ClosesIffFound(rest: string)
    ensures Closes(rest) <==> CloseAt(rest) < |rest|
  {
    if Closes(rest) {
      var n :| 0 <= n < |rest| && rest[n] == ']' && ClassBody(rest[..n]);
      CloseIsTheBody(rest, n);
    }
    if CloseAt(rest) < |rest| {
      CloseIsTheBody(rest, CloseAt(rest));
    }
  }

  lemma Shift(pattern: string, n: nat)
    requires 2 <= n <= |pattern|
    ensures pattern[..n][1..n - 1] == pattern[1..][..n - 2]
  {
    var left, right := pattern[..n][1..n - 1], pattern[1..][..n - 2];
    assert |left| == |right|;
    assert forall k :: 0 <= k < n - 2 ==> left[k] == pattern[k + 1] == right[k];
  }

  /** A bracket segment is cut where the scan finds the closing bracket. */
  lemma ClassSegment(pattern: string, n: nat, token: Token)
    requires 0 < n <= |pattern| && token.Class? && pattern[0] == '['
    ensures Segment(pattern[..n], pattern[n..], token) <==>
            && n == CloseAt(pattern[1..]) + 2
            && var rest := pattern[1..];
            token == Class(rest[0] == '!', Members(rest[BodyStart(rest)..n - 2]))
  {
    var rest := pattern[1..];
    if n >= 3 && pattern[n - 1] == ']' {
      CloseIsTheBody(rest, n - 2);
      var body := pattern[..n][1..n - 1];
      Shift(pattern, n);
      if ClassBody(body) {
        assert Inner(body) == rest[BodyStart(rest)..n - 2];
      }
    }
  }

  lemma FirstSegment(pattern: string, n: nat, token: Token)
    requires 0 < n <= |pattern|
    ensures Segment(pattern[..n], pattern[n..], token) <==>
            token == FirstToken(pattern) && n == SegmentLength(pattern)
  {
    ClosesIffFound(pattern[1..]);
    if token.Class? && pattern[0] == '[' {
      ClassSegment(pattern, n, token);
    } else if n == 1 {
      assert pattern[..n] == [pattern[0]];
    } else {
      assert |pattern[..n]| == n;
    }
  }

  lemma {:induction false} ParsesIsTokenize(pattern: string, tokens: seq<Token>)
    requires Parses(pattern, tokens)
    ensures tokens == Tokenize(pattern)
    decreases |pattern|
  {
    if tokens != [] {
      var n :| 0 < n <= |pattern| && Segment(pattern[..n], pattern[n..], tokens[0])
               && Parses(pattern[n..], tokens[1..]);
      FirstSegment(pattern, n, tokens[0]);
      ParsesIsTokenize(pattern[n..], tokens[1..]);
      assert tokens == [tokens[0]] + tokens[1..];
    }
  }

  lemma {:induction false} TokenizeParses(pattern: string)
    ensures Parses(pattern, Tokenize(pattern))
    decreases |pattern|
  {
    if pattern != "" {
      var tokens, n := Tokenize(pattern), SegmentLength(pattern);
      FirstSegment(pattern, n, tokens[0]);
      TokenizeParses(pattern[n..]);
      assert tokens[1..] == Tokenize(pattern[n..]);
    }
  }

  /** The tokenizer computes exactly the one segmentation the grammar allows. */
  lemma TokenizeExact(pattern: string, tokens: seq<Token>)
    ensures Parses(pattern, tokens) <==> tokens == Tokenize(pattern)
  {
    TokenizeParses(pattern);
    if Parses(pattern, tokens) {
      ParsesIsTokenize(pattern, tokens);
    }
  }

  method Ranges(pattern: string, from: nat, end: nat) returns (ranges: seq<(char, char)>)
    requires from <= end <= |pattern|
    ensures ranges == Members(pattern[from..end])
  {
    ranges := [];
    var j := from;
    while j < end
      invariant from <= j <= end
      invariant ranges + Members(pattern[j..end]) == Members(pattern[from..end])
    {
      ghost var left := pattern[j..end];
      ghost var before := ranges;
      if j + 2 < end && pattern[j + 1] == '-' {
        assert left[3..] == pattern[j + 3..end];
        ranges := ranges + [(pattern[j], pattern[j + 2])];
        j := j + 3;
      } else {
        assert left[1..] == pattern[j + 1..end];
        ranges := ranges + [(pattern[j], pattern[j])];
        j := j + 1;
      }
      Regroup(before, Members(left), ranges, Members(pattern[j..end]));
    }
  }

  lemma Slice<T>(s: seq<T>, start: nat, from: nat, to: nat)
    requires from <= to && start + to <= |s|
    ensures s[start..][from..to] == s[start + from..start + to]
  {
    var left, right := s[start..][from..to], s[start + from..start + to];
    assert forall k :: 0 <= k < to - from ==> left[k] == s[start + from + k] == right[k];
  }

  /** Moving the first element of the tail to the end of the head keeps the whole. */
  lemma Regroup<T>(head: seq<T>, tail: seq<T>, head': seq<T>, tail': seq<T>)
    requires tail != []
    requires head' == head + [tail[0]] && tail == [tail[0]] + tail'
    ensures head' + tail' == head + tail
  {
  }

  method BracketEnd(pattern: string, start: nat) returns (end: nat)
    requires start <= |pattern|
    ensures start <= end <= |pattern| && end - start == CloseAt(pattern[start..])
  {
    ghost var rest := pattern[start..];
    end := start;
    if end < |pattern| && pattern[end] == '!' {
      end := end + 1;
    }
    if end < |pattern| && pattern[end] == ']' {
      end := end + 1;
    }
    while end < |pattern| && pattern[end] != ']'
      invariant start <= end <= |pattern|
      invariant CloseFrom(rest, end - start) == CloseAt(rest)
    {
      end := end + 1;
    }
  }

  /** The token at an index, and the index of its last character. */
  method TokenAt(pattern: string, i: nat) returns (token: Token, last: nat)
    requires i < |pattern|
    ensures i <= last < |pattern|
    ensures token == FirstToken(pattern[i..]) && last + 1 - i == SegmentLength(pattern[i..])
  {
    last := i;
    ghost var left := pattern[i..];
    if pattern[i] == '*' {
      token := Star;
    } else if pattern[i] == '?' {
      token := Any;
    } else if pattern[i] == '[' {
      var start := i + 1;
      ghost var rest := pattern[start..];
      assert left[1..] == rest;
      var end := BracketEnd(pattern, start);
      if end == |pattern| {
        token := Literal('[');
      } else {
        var negated := pattern[start] == '!';
        var ranges := Ranges(pattern, if negated then start + 1 else start, end);
        Slice(pattern, start, BodyStart(rest), end - start);
        last := end;
        token := Class(negated, ranges);
      }
    } else {
      token := Literal(pattern[i]);
    }
  }

  lemma TokenStep(pattern: string, i: nat, token: Token, last: nat)
    requires i <= last < |pattern|
    requires token == FirstToken(pattern[i..]) && last + 1 - i == SegmentLength(pattern[i..])
    ensures Tokenize(pattern[i..]) == [token] + Tokenize(pattern[last + 1..])
  {
    assert pattern[i..][last + 1 - i..] == pattern[last + 1..];
  }

  method Tokens(pattern: string) returns (tokens: seq<Token>)
    ensures tokens == Tokenize(pattern)
  {
    tokens := [];
    var i := 0;
    while i < |pattern|
      invariant i <= |pattern|
      invariant tokens + Tokenize(pattern[i..]) == Tokenize(pattern)
    {
      var token, last := TokenAt(pattern, i);
      TokenStep(pattern, i, token, last);
      Regroup(tokens, Tokenize(pattern[i..]), tokens + [token], Tokenize(pattern[last + 1..]));
      tokens := tokens + [token];
      i := last + 1;
    }
  }

  // ----- the row-by-row matcher -----

  /** Each entry says whether the tokens accept that prefix of the path. */
  ghost predicate RowOf(tokens: seq<Token>, path: string, row: seq<bool>) {
    |row| == |path| + 1 && forall i :: 0 <= i < |row| ==> (row[i] <==> InLanguage(tokens, path[..i]))
  }

  method NextRow(tokens: seq<Token>, t: nat, path: string, row: array<bool>) returns (next: array<bool>)
    requires t < |tokens| && RowOf(tokens[..t], path, row[..])
    ensures fresh(next) && RowOf(tokens[..t + 1], path, next[..])
  {
    var token := tokens[t];
    ghost var above := row[..];
    next := new bool[row.Length];
    next[0] := token.Star? && row[0];
    RowStep(tokens, t, path, 0);
    for i := 0 to |path|
      invariant row[..] == above
      invariant forall k :: 0 <= k <= i ==> (next[k] <==> InLanguage(tokens[..t + 1], path[..k]))
    {
      RowStep(tokens, t, path, i + 1);
      assert row[i] == above[i] && row[i + 1] == above[i + 1];
      next[i + 1] :=
        match token
        case Star => next[i] || row[i + 1]
        case Any => row[i]
        case Literal(value) => row[i] && path[i] == value
        case Class(negated, ranges) => row[i] && (InSomeRange(ranges, path[i]) != negated);
    }
  }

  method Matches(pattern: string, path: string) returns (matched: bool)
    ensures matched <==> InLanguage(Tokenize(pattern), path)
  {
    var tokens := Tokens(pattern);
    var row := new bool[|path| + 1](i => i == 0);
    assert RowOf(tokens[..0], path, row[..]) by {
      forall i | 0 <= i <= |path| ensures row[i] <==> InLanguage(tokens[..0], path[..i]) {
        EmptyLanguage(path[..i]);
      }
    }
    for t := 0 to |tokens|
      invariant RowOf(tokens[..t], path, row[..])
    {
      row := NextRow(tokens, t, path, row);
    }
    assert tokens[..|tokens|] == tokens && path[..|path|] == path;
    assert row[..][|path|] <==> InLanguage(tokens, path);
    matched := row[row.Length - 1];
  }

  /** One entry of the next row in terms of its left and upper neighbours. */
  lemma RowStep(tokens: seq<Token>, t: nat, path: string, i: nat)
    requires t < |tokens| && i <= |path|
    ensures InLanguage(tokens[..t + 1], path[..i]) <==>
            if tokens[t].Star? then
              InLanguage(tokens[..t], path[..i]) || (i > 0 && InLanguage(tokens[..t + 1], path[..i - 1]))
            else i > 0 && Accepts(tokens[t], path[i - 1]) && InLanguage(tokens[..t], path[..i - 1])
  {
    assert tokens[..t + 1] == tokens[..t] + [tokens[t]];
    assert i > 0 ==> path[..i][..i - 1] == path[..i - 1];
    if tokens[t].Star? {
      BackStar(tokens[..t], path[..i]);
    } else {
      BackSingle(tokens[..t], tokens[t], path[..i]);
    }
  }

  /** Some character is accepted by both tokens. */
  ghost predicate Meet(left: Token, right: Token) {
    exists ch :: Accepts(left, ch) && Accepts(right, ch)
  }

  // ----- intersection of two tokens at finitely many boundaries -----

  function TokenRanges(token: Token): seq<(char, char)> {
    match token
    case Literal(value) => [(value, value)]
    case Class(_, ranges) => ranges
    case _ => []
  }

  /** `char::from_u32`: surrogates and numbers above 0x10FFFF are not characters. */
  predicate IsScalar(code: nat) {
    code < 0xD800 || 0xE000 <= code < 0x11_0000
  }

  /** Both edges of every nonempty range of the token are among the boundaries. */
  ghost predicate Edges(ranges: seq<(char, char)>, boundaries: seq<nat>) {
    forall k :: 0 <= k < |ranges| && ranges[k].0 <= ranges[k].1 ==>
      && ranges[k].0 as nat in boundaries
      && (ranges[k].1 as nat < 0x10FFFF ==> ranges[k].1 as nat + 1 in boundaries)
  }

  /** No scalar boundary lies strictly above `low` and at most at `high`. */
  ghost predicate NoneBetween(boundaries: seq<nat>, low: char, high: char) {
    forall b :: b in boundaries && IsScalar(b) ==> !(low as nat < b <= high as nat)
  }

  lemma SameInterval(token: Token, boundaries: seq<nat>, low: char, high: char)
    requires low <= high && NoneBetween(boundaries, low, high)
    requires Edges(TokenRanges(token), boundaries) && 0xE000 in boundaries
    ensures Accepts(token, low) == Accepts(token, high)
  {
    var ranges := TokenRanges(token);
    forall k | 0 <= k < |ranges|
      ensures ranges[k].0 <= low <= ranges[k].1 <==> ranges[k].0 <= high <= ranges[k].1
    {
      assert IsScalar(ranges[k].0 as nat) && IsScalar(0xE000);
      assert IsScalar(high as nat) && IsScalar(low as nat);
    }
    if token.Literal? {
      assert ranges[0] == (token.value, token.value);
    }
  }

  lemma {:induction false} NearestBoundary(boundaries: seq<nat>, ch: char) returns (low: char)
    requires 0 in boundaries
    ensures low as nat in boundaries && low <= ch && NoneBetween(boundaries, low, ch)
  {
    low := 0 as char;
    var i := 0;
    while i < |boundaries|
      invariant i <= |boundaries|
      invariant low as nat in boundaries && low <= ch
      invariant NoneBetween(boundaries[..i], low, ch)
    {
      var b := boundaries[i];
      if IsScalar(b) && low as nat < b <= ch as nat {
        low := b as char;
      }
      i := i + 1;
    }
    assert boundaries[..i] == boundaries;
  }

  method AddEdges(token: Token, known: seq<nat>) returns (boundaries: seq<nat>)
    ensures known <= boundaries && Edges(TokenRanges(token), boundaries)
  {
    boundaries := known;
    var ranges := TokenRanges(token);
    for k := 0 to |ranges|
      invariant known <= boundaries && Edges(ranges[..k], boundaries)
    {
      ghost var before := boundaries;
      var (a, b) := ranges[k];
      if a <= b {
        boundaries := boundaries + [a as nat];
        if b as nat < 0x10FFFF {
          boundaries := boundaries + [b as nat + 1];
        }
      }
      assert forall x :: x in before ==> x in boundaries;
    }
    assert ranges[..|ranges|] == ranges;
  }

  method Intersect(left: Token, right: Token) returns (meet: bool)
    ensures meet <==> Meet(left, right)
  {
    var start: seq<nat> := [0, 0xE000];
    var half := AddEdges(left, start);
    var boundaries := AddEdges(right, half);
    assert start[0] in boundaries && start[1] in boundaries;
    assert forall x :: x in half ==> x in boundaries;
    meet := exists i :: 0 <= i < |boundaries| && IsScalar(boundaries[i])
                        && Accepts(left, boundaries[i] as char) && Accepts(right, boundaries[i] as char);
    forall ch | Accepts(left, ch) && Accepts(right, ch) ensures meet {
      var low := NearestBoundary(boundaries, ch);
      SameInterval(left, boundaries, low, ch);
      SameInterval(right, boundaries, low, ch);
      var i :| 0 <= i < |boundaries| && boundaries[i] == low as nat;
    }
  }

  // ----- the pair-state worklist -----

  /** Some text belongs to both languages. */
  ghost predicate Overlap(left: seq<Token>, right: seq<Token>) {
    exists text :: InLanguage(left, text) && InLanguage(right, text)
  }

  type State = (nat, nat)

  function Advance(tokens: seq<Token>, i: nat): (next: nat)
    requires i < |tokens|
  {
    if tokens[i].Star? then i else i + 1
  }

  ghost predicate InBounds(left: seq<Token>, right: seq<Token>, s: State) {
    s.0 <= |left| && s.1 <= |right|
  }

  ghost predicate Successor(left: seq<Token>, right: seq<Token>, s: State, next: State) {
    || (s.0 < |left| && left[s.0].Star? && next == (s.0 + 1, s.1))
    || (s.1 < |right| && right[s.1].Star? && next == (s.0, s.1 + 1))
    || (s.0 < |left| && s.1 < |right| && Meet(left[s.0], right[s.1])
        && next == (Advance(left, s.0), Advance(right, s.1)))
  }

  /** The texts both suffixes accept. */
  ghost predicate Common(left: seq<Token>, right: seq<Token>, s: State, text: string)
    requires InBounds(left, right, s)
  {
    InLanguage(left[s.0..], text) && InLanguage(right[s.1..], text)
  }

  ghost predicate Alive(left: seq<Token>, right: seq<Token>, s: State)
    requires InBounds(left, right, s)
  {
    exists text :: Common(left, right, s, text)
  }

  lemma Prepend(tokens: seq<Token>, i: nat, ch: char, text: string)
    requires i < |tokens| && Accepts(tokens[i], ch)
    requires InLanguage(tokens[Advance(tokens, i)..], text)
    ensures InLanguage(tokens[i..], [ch] + text)
  {
    assert ([ch] + text)[1..] == text && tokens[i..][1..] == tokens[i + 1..];
    if tokens[i].Star? {
      FrontStar(tokens[i..], [ch] + text);
    } else {
      FrontSingle(tokens[i..], [ch] + text);
    }
  }

  lemma StepBack(left: seq<Token>, right: seq<Token>, s: State, next: State)
    requires InBounds(left, right, s) && Successor(left, right, s, next)
    requires InBounds(left, right, next) && Alive(left, right, next)
    ensures Alive(left, right, s)
  {
    var text :| Common(left, right, next, text);
    if s.0 < |left| && left[s.0].Star? && next == (s.0 + 1, s.1) {
      assert left[s.0..][1..] == left[next.0..];
      FrontStar(left[s.0..], text);
      assert Common(left, right, s, text);
    } else if s.1 < |right| && right[s.1].Star? && next == (s.0, s.1 + 1) {
      assert right[s.1..][1..] == right[next.1..];
      FrontStar(right[s.1..], text);
      assert Common(left, right, s, text);
    } else {
      var ch :| Accepts(left[s.0], ch) && Accepts(right[s.1], ch);
      Prepend(left, s.0, ch, text);
      Prepend(right, s.1, ch, text);
      assert Common(left, right, s, [ch] + text);
    }
  }

  ghost predicate Exhausted(left: seq<Token>, right: seq<Token>, seen: set<State>) {
    && (|left|, |right|) !in seen
    && forall s, next :: s in seen && Successor(left, right, s, next) ==> next in seen
  }

  /** A closed set of states without the final one contains no state with a common text. */
  lemma {:induction false} ClosedIsDead(left: seq<Token>, right: seq<Token>, seen: set<State>, s: State, text: string)
    requires Exhausted(left, right, seen) && s in seen && InBounds(left, right, s)
    ensures !Common(left, right, s, text)
    decreases |left| - s.0 + |right| - s.1 + |text|
  {
    var (a, b) := s;
    if a < |left| && left[a].Star? {
      assert Successor(left, right, s, (a + 1, b));
      assert left[a..][1..] == left[a + 1..];
      FrontStar(left[a..], text);
      ClosedIsDead(left, right, seen, (a + 1, b), text);
    }
    if b < |right| && right[b].Star? {
      assert Successor(left, right, s, (a, b + 1));
      assert right[b..][1..] == right[b + 1..];
      FrontStar(right[b..], text);
      ClosedIsDead(left, right, seen, (a, b + 1), text);
    }
    if Common(left, right, s, text) {
      if a == |left| {
        EmptyLanguage(text);
        if b < |right| { FrontSingle(right[b..], text); }
        assert false;
      } else if b == |right| {
        EmptyLanguage(text);
        FrontSingle(left[a..], text);
        assert false;
      } else {
        FirstCharacter(left, a, text);
        FirstCharacter(right, b, text);
        assert Successor(left, right, s, (Advance(left, a), Advance(right, b)));
        ClosedIsDead(left, right, seen, (Advance(left, a), Advance(right, b)), text[1..]);
        assert false;
      }
    }
  }

  /** Unless a leading star takes the empty piece, the first token takes the first character. */
  lemma FirstCharacter(tokens: seq<Token>, i: nat, text: string)
    requires i < |tokens| && InLanguage(tokens[i..], text)
    requires tokens[i].Star? ==> !InLanguage(tokens[i + 1..], text)
    ensures text != "" && Accepts(tokens[i], text[0]) && InLanguage(tokens[Advance(tokens, i)..], text[1..])
  {
    assert tokens[i..][1..] == tokens[i + 1..];
    if tokens[i].Star? {
      FrontStar(tokens[i..], text);
    } else {
      FrontSingle(tokens[i..], text);
    }
  }

  /** Every pending state with a common text leads back to one for the whole patterns. */
  ghost predicate Sound(left: seq<Token>, right: seq<Token>, pending: seq<State>) {
    forall s :: s in pending ==> InBounds(left, right, s) && (Alive(left, right, s) ==> Overlap(left, right))
  }

  /** What a visited state leads to is visited or pending. */
  ghost predicate Covered(left: seq<Token>, right: seq<Token>, seen: set<State>, pending: seq<State>) {
    forall s, next :: s in seen && Successor(left, right, s, next) ==> next in seen || next in pending
  }

  lemma Visit(left: seq<Token>, right: seq<Token>, seen: set<State>, pending: seq<State>, s: State, pushed: seq<State>)
    requires InBounds(left, right, s) && (Alive(left, right, s) ==> Overlap(left, right))
    requires Sound(left, right, pending) && Covered(left, right, seen, pending + [s])
    requires forall next :: next in pushed <==> Successor(left, right, s, next)
    ensures Sound(left, right, pending + pushed)
    ensures Covered(left, right, seen + {s}, pending + pushed)
  {
    forall next | next in pushed
      ensures InBounds(left, right, next) && (Alive(left, right, next) ==> Overlap(left, right))
    {
      if Alive(left, right, next) {
        StepBack(left, right, s, next);
      }
    }
  }

  method Successors(left: seq<Token>, right: seq<Token>, s: State) returns (pushed: seq<State>)
    requires InBounds(left, right, s)
    ensures forall next :: next in pushed <==> Successor(left, right, s, next)
  {
    var (a, b) := s;
    pushed := [];
    if a < |left| && left[a].Star? {
      pushed := pushed + [(a + 1, b)];
    }
    if b < |right| && right[b].Star? {
      pushed := pushed + [(a, b + 1)];
    }
    if a < |left| && b < |right| {
      var meet := Intersect(left[a], right[b]);
      if meet {
        pushed := pushed + [(Advance(left, a), Advance(right, b))];
      }
    }
  }

  lemma FinalIsAlive(left: seq<Token>, right: seq<Token>)
    ensures Alive(left, right, (|left|, |right|))
  {
    EmptyLanguage("");
    assert left[|left|..] == [] && right[|right|..] == [];
    assert Common(left, right, (|left|, |right|), "");
  }

  lemma ExhaustedIsDisjoint(left: seq<Token>, right: seq<Token>, seen: set<State>)
    requires Exhausted(left, right, seen) && (0, 0) in seen
    ensures !Overlap(left, right)
  {
    assert left[0..] == left && right[0..] == right;
    forall text ensures !(InLanguage(left, text) && InLanguage(right, text)) {
      ClosedIsDead(left, right, seen, (0, 0), text);
    }
  }

  lemma StartIsSound(left: seq<Token>, right: seq<Token>)
    ensures Sound(left, right, [(0, 0)])
  {
    assert left[0..] == left && right[0..] == right;
    if Alive(left, right, (0, 0)) {
      var text :| Common(left, right, (0, 0), text);
    }
  }

  method PatternsOverlap(leftPattern: string, rightPattern: string) returns (overlap: bool)
    ensures overlap <==> Overlap(Tokenize(leftPattern), Tokenize(rightPattern))
  {
    var left := Tokens(leftPattern);
    var right := Tokens(rightPattern);
    var pending: seq<State> := [(0, 0)];
    var seen: set<State> := {};
    ghost var states: set<State> := set a: nat, b: nat | a <= |left| && b <= |right| :: (a, b);
    StartIsSound(left, right);
    while pending != []
      invariant Sound(left, right, pending)
      invariant seen <= states && (|left|, |right|) !in seen
      invariant Covered(left, right, seen, pending)
      invariant (0, 0) in seen || (0, 0) in pending
      decreases states - seen, |pending|
    {
      ghost var before := pending;
      var s := pending[|pending| - 1];
      pending := pending[..|pending| - 1];
      assert before == pending + [s] && s in before;
      if s in seen {
        continue;
      }
      if s.0 == |left| && s.1 == |right| {
        FinalIsAlive(left, right);
        return true;
      }
      var pushed := Successors(left, right, s);
      Visit(left, right, seen, pending, s, pushed);
      seen := seen + {s};
      pending := pending + pushed;
    }
    ExhaustedIsDisjoint(left, right, seen);
    overlap := false;
  }

  // ----- when overlap with a path is the same as matching it -----

  ghost predicate AllLiteral(tokens: seq<Token>) {
    forall k :: 0 <= k < |tokens| ==> tokens[k].Literal?
  }

  /** A pattern written to match one text only: metacharacters become brackets. */
  function Escape(text: string): string {
    if text == "" then ""
    else (if text[0] in "*?[" then "[" + [text[0]] + "]" else [text[0]]) + Escape(text[1..])
  }

  lemma EscapedToken(ch: char, tail: string)
    ensures var pattern := (if ch in "*?[" then "[" + [ch] + "]" else [ch]) + tail;
            && FirstToken(pattern) == (if ch in "*?[" then Class(false, [(ch, ch)]) else Literal(ch))
            && pattern[SegmentLength(pattern)..] == tail
  {
    if ch in "*?[" {
      var pattern := "[" + [ch] + "]" + tail;
      var rest := [ch] + "]" + tail;
      assert pattern[1..] == rest && pattern[3..] == tail;
      assert CloseFrom(rest, 1) == 1 && CloseAt(rest) == 1;
      assert rest[0..1] == [ch] && Members([ch]) == [(ch, ch)];
    } else {
      assert ([ch] + tail)[1..] == tail;
    }
  }

  lemma OneCharacterHead(tokens: seq<Token>, ch: char, other: string)
    requires tokens != [] && tokens[0] in [Literal(ch), Class(false, [(ch, ch)])]
    ensures InLanguage(tokens, other) <==> other != "" && other[0] == ch && InLanguage(tokens[1..], other[1..])
  {
    FrontSingle(tokens, other);
    assert [(ch, ch)][0] == (ch, ch);
  }

  lemma {:induction false} EscapeMatchesOnly(text: string, other: string)
    ensures InLanguage(Tokenize(Escape(text)), other) <==> other == text
    decreases |text|
  {
    if text == "" {
      EmptyLanguage(other);
    } else {
      var tail := Escape(text[1..]);
      var tokens := Tokenize(Escape(text));
      EscapedToken(text[0], tail);
      assert tokens[1..] == Tokenize(tail);
      OneCharacterHead(tokens, text[0], other);
      if other != "" {
        EscapeMatchesOnly(text[1..], other[1..]);
        assert other == [other[0]] + other[1..];
        assert text == [text[0]] + text[1..];
      }
    }
  }

  lemma {:induction false} LiteralsSpellThePattern(pattern: string, text: string)
    requires AllLiteral(Tokenize(pattern))
    ensures InLanguage(Tokenize(pattern), text) <==> text == pattern
    decreases |pattern|
  {
    if pattern == "" {
      EmptyLanguage(text);
    } else {
      var tokens := Tokenize(pattern);
      assert tokens[0].Literal?;
      assert tokens[1..] == Tokenize(pattern[1..]);
      assert forall k :: 0 <= k < |tokens| - 1 ==> tokens[1..][k] == tokens[k + 1];
      FrontSingle(tokens, text);
      if text != "" {
        LiteralsSpellThePattern(pattern[1..], text[1..]);
        assert text == [text[0]] + text[1..];
        assert pattern == [pattern[0]] + pattern[1..];
      }
    }
  }

  lemma {:induction false} WildcardsAdmitAnother(tokens: seq<Token>, k: nat, text: string) returns (other: string)
    requires k < |tokens| && (tokens[k].Star? || tokens[k].Any?)
    requires InLanguage(tokens, text)
    ensures InLanguage(tokens, other) && other != text
    decreases |tokens| + |text|
  {
    if tokens[0].Star? {
      other := ['a'] + text;
      assert other[1..] == text && |other| != |text|;
      FrontStar(tokens, other);
    } else {
      FrontSingle(tokens, text);
      if tokens[0].Any? {
        other := [if text[0] == 'a' then 'b' else 'a'] + text[1..];
        assert other[0] != text[0] && other[1..] == text[1..];
      } else {
        var tail := WildcardsAdmitAnother(tokens[1..], k - 1, text[1..]);
        other := [text[0]] + tail;
        assert other[1..] == tail;
      }
      FrontSingle(tokens, other);
    }
  }

  lemma {:induction false} OneCharacterEach(tokens: seq<Token>, text: string)
    requires InLanguage(tokens, text) && forall k :: 0 <= k < |tokens| ==> !tokens[k].Star?
    ensures |text| == |tokens|
    decreases |tokens|
  {
    if tokens == [] {
      EmptyLanguage(text);
    } else {
      FrontSingle(tokens, text);
      OneCharacterEach(tokens[1..], text[1..]);
    }
  }

  lemma {:induction false} BracketsAreLonger(pattern: string)
    ensures |Tokenize(pattern)| <= |pattern|
    ensures (exists k :: 0 <= k < |Tokenize(pattern)| && Tokenize(pattern)[k].Class?) ==>
              |Tokenize(pattern)| < |pattern|
    decreases |pattern|
  {
    if pattern != "" {
      var tail := pattern[SegmentLength(pattern)..];
      BracketsAreLonger(tail);
      assert Tokenize(pattern) == [FirstToken(pattern)] + Tokenize(tail);
    }
  }

  ghost predicate OverlapMatches(path: string) {
    forall pattern ::
      Overlap(Tokenize(pattern), Tokenize(path)) <==> InLanguage(Tokenize(pattern), path)
  }

  /** Overlap with a path, as `patterns_overlap` decides it for target patterns, coincides
      with matching that path for every pattern exactly when the path, read as a pattern,
      has only literal tokens. */
  lemma OverlapIsMatching(path: string)
    ensures OverlapMatches(path) <==> AllLiteral(Tokenize(path))
  {
    var tokens := Tokenize(path);
    if AllLiteral(tokens) {
      forall pattern
        ensures Overlap(Tokenize(pattern), tokens) <==> InLanguage(Tokenize(pattern), path)
      {
        forall text { LiteralsSpellThePattern(path, text); }
      }
    } else if OverlapMatches(path) {
      EscapeMatchesOnly(path, path);
      assert Overlap(Tokenize(Escape(path)), tokens);
      var text :| InLanguage(Tokenize(Escape(path)), text) && InLanguage(tokens, text);
      EscapeMatchesOnly(path, text);
      var k :| 0 <= k < |tokens| && !tokens[k].Literal?;
      if exists w :: 0 <= w < |tokens| && (tokens[w].Star? || tokens[w].Any?) {
        var w :| 0 <= w < |tokens| && (tokens[w].Star? || tokens[w].Any?);
        var other := WildcardsAdmitAnother(tokens, w, path);
        EscapeMatchesOnly(other, other);
        EscapeMatchesOnly(other, path);
        assert Overlap(Tokenize(Escape(other)), tokens);
        assert false;
      } else {
        OneCharacterEach(tokens, path);
        BracketsAreLonger(path);
        assert false;
      }
    }
  }

  /** The counterexample: `?` matches the one-character texts, so it overlaps `[a]`,
      but it does not match the three characters `[a]`. */
  lemma OverlapIsNotMatching()
    ensures Overlap(Tokenize("?"), Tokenize("[a]")) && !InLanguage(Tokenize("?"), "[a]")
  {
    var question, bracket := Tokenize("?"), Tokenize("[a]");
    assert question == [Any];
    assert Escape("[") == "[[]" + "";
    var rest := "a]";
    assert "[a]"[1..] == rest;
    assert CloseFrom(rest, 1) == 1 && CloseAt(rest) == 1;
    assert rest[0..1] == "a" && Members("a") == [('a', 'a')];
    assert bracket == [Class(false, [('a', 'a')])];
    EmptyLanguage("");
    FrontSingle(question, "a");
    FrontSingle(bracket, "a");
    assert InSomeRange([('a', 'a')], 'a') by { assert [('a', 'a')][0].0 <= 'a' <= [('a', 'a')][0].1; }
    FrontSingle(question, "[a]");
    EmptyLanguage("[a]"[1..]);
  }

  /** For a pattern of literals only, overlap asks whether the path, read as a pattern, matches the
      pattern; matching asks whether they are the same text. */
  lemma LiteralPatternOverlap(pattern: string, path: string)
    requires AllLiteral(Tokenize(pattern))
    ensures Overlap(Tokenize(pattern), Tokenize(path)) <==> InLanguage(Tokenize(path), pattern)
    ensures InLanguage(Tokenize(pattern), path) <==> path == pattern
  {
    forall text ensures InLanguage(Tokenize(pattern), text) <==> text == pattern {
      LiteralsSpellThePattern(pattern, text);
    }
  }

  /** So a pattern without metacharacters can overlap a path it does not match: `a` and `?`. */
  lemma LiteralOverlapIsNotMatching()
    ensures AllLiteral(Tokenize("a")) && Overlap(Tokenize("a"), Tokenize("?")) && !InLanguage(Tokenize("a"), "?")
  {
    assert "a"[1..] == "" && "?"[1..] == "";
    assert Tokenize("a") == [Literal('a')] && Tokenize("?") == [Any];
    LiteralPatternOverlap("a", "?");
    FrontSingle([Any], "a");
    EmptyLanguage("");
  }

  // ----- what each kind of segment matches, on texts alone -----

  /** A member of a bracket body: one character, or the characters between two. */
  datatype Item = One(value: char) | Span(low: char, high: char)

  predicate Admits(item: Item, ch: char) {
    match item
    case One(value) => ch == value
    case Span(low, high) => low <= ch && ch <= high
  }

  function Spell(items: seq<Item>): string {
    if items == [] then ""
    else (match items[0] case One(value) => [value] case Span(low, high) => [low, '-', high]) + Spell(items[1..])
  }

  /** No single character is followed by a hyphen and one more character: that would be a span. */
  predicate Plain(items: seq<Item>) {
    items == []
    || (Plain(items[1..])
        && (items[0].One? ==> |Spell(items[1..])| < 2 || Spell(items[1..])[0] != '-'))
  }

  /** Every bracket body is spelled by some list of members. */
  lemma {:induction false} EveryBodyIsSpelled(inner: string) returns (items: seq<Item>)
    ensures Plain(items) && Spell(items) == inner
    decreases |inner|
  {
    if inner == "" {
      items := [];
    } else if |inner| >= 3 && inner[1] == '-' {
      var rest := EveryBodyIsSpelled(inner[3..]);
      items := [Span(inner[0], inner[2])] + rest;
      assert items[1..] == rest;
      assert inner == [inner[0], '-', inner[2]] + inner[3..];
    } else {
      var rest := EveryBodyIsSpelled(inner[1..]);
      items := [One(inner[0])] + rest;
      assert items[1..] == rest;
      assert inner == [inner[0]] + inner[1..];
    }
  }

  ghost predicate SomeAdmits(items: seq<Item>, ch: char) {
    exists k :: 0 <= k < |items| && Admits(items[k], ch)
  }

  lemma FirstAdmits(items: seq<Item>, ch: char)
    requires items != []
    ensures SomeAdmits(items, ch) <==> Admits(items[0], ch) || SomeAdmits(items[1..], ch)
  {
    if SomeAdmits(items[1..], ch) {
      var k :| 0 <= k < |items| - 1 && Admits(items[1..][k], ch);
      assert Admits(items[k + 1], ch);
    }
    assert forall k :: 1 <= k < |items| ==> items[k] == items[1..][k - 1];
  }

  lemma FirstRange(range: (char, char), ranges: seq<(char, char)>, ch: char)
    ensures InSomeRange([range] + ranges, ch) <==> range.0 <= ch <= range.1 || InSomeRange(ranges, ch)
  {
    var all := [range] + ranges;
    if InSomeRange(ranges, ch) {
      var k :| 0 <= k < |ranges| && ranges[k].0 <= ch <= ranges[k].1;
      assert all[k + 1] == ranges[k];
    }
    assert all[0] == range && forall k :: 1 <= k < |all| ==> all[k] == ranges[k - 1];
  }

  lemma {:induction false} MembersAdmit(items: seq<Item>, ch: char)
    requires Plain(items)
    ensures InSomeRange(Members(Spell(items)), ch) <==> SomeAdmits(items, ch)
  {
    if items != [] {
      var rest := items[1..];
      var inner := Spell(items);
      MembersAdmit(rest, ch);
      FirstAdmits(items, ch);
      match items[0] {
        case One(value) =>
          assert inner[1..] == Spell(rest);
          assert Members(inner) == [(value, value)] + Members(Spell(rest));
          FirstRange((value, value), Members(Spell(rest)), ch);
        case Span(low, high) =>
          assert inner[3..] == Spell(rest);
          assert Members(inner) == [(low, high)] + Members(Spell(rest));
          FirstRange((low, high), Members(Spell(rest)), ch);
      }
    }
  }

  lemma BracketToken(body: string)
    requires ClassBody(body)
    ensures Tokenize("[" + body + "]") == [Class(body[0] == '!', Members(Inner(body)))]
  {
    var pattern, token := "[" + body + "]", Class(body[0] == '!', Members(Inner(body)));
    assert pattern[1..|pattern| - 1] == body && pattern[..|pattern|] == pattern;
    assert pattern[|pattern|..] == "" && [token][1..] == [];
    assert Segment(pattern[..|pattern|], pattern[|pattern|..], token);
    assert Parses(pattern[|pattern|..], [token][1..]);
    assert Parses(pattern, [token]);
    TokenizeExact(pattern, [token]);
  }

  lemma OneToken(token: Token, text: string)
    requires !token.Star?
    ensures InLanguage([token], text) <==> |text| == 1 && Accepts(token, text[0])
  {
    FrontSingle([token], text);
    assert [token][1..] == [];
    if text != "" {
      EmptyLanguage(text[1..]);
    }
  }

  /** A bracket matches exactly the one-character texts that some member of its body admits. */
  lemma BracketMatches(items: seq<Item>, text: string)
    requires Plain(items) && items != []
    requires var inner := Spell(items); inner[0] != '!' && ']' !in inner[1..]
    ensures InLanguage(Tokenize("[" + Spell(items) + "]"), text) <==> |text| == 1 && SomeAdmits(items, text[0])
  {
    BracketToken(Spell(items));
    OneToken(Class(false, Members(Spell(items))), text);
    if |text| == 1 {
      MembersAdmit(items, text[0]);
    }
  }

  /** A negated bracket matches exactly the one-character texts that no member admits. */
  lemma NegatedBracketMatches(items: seq<Item>, text: string)
    requires Plain(items) && items != [] && ']' !in Spell(items)[1..]
    ensures InLanguage(Tokenize("[!" + Spell(items) + "]"), text) <==> |text| == 1 && !SomeAdmits(items, text[0])
  {
    var inner := Spell(items);
    assert ("!" + inner)[1..] == inner && "[" + ("!" + inner) + "]" == "[!" + inner + "]";
    BracketToken("!" + inner);
    OneToken(Class(true, Members(inner)), text);
    if |text| == 1 {
      MembersAdmit(items, text[0]);
    }
  }

  lemma SpanIsPlain(low: char, high: char)
    ensures Plain([Span(low, high)]) && Spell([Span(low, high)]) == [low, '-', high]
    ensures forall ch :: SomeAdmits([Span(low, high)], ch) <==> low <= ch && ch <= high
  {
    forall ch ensures SomeAdmits([Span(low, high)], ch) <==> low <= ch && ch <= high {
      FirstAdmits([Span(low, high)], ch);
    }
  }

  /** In particular a range matches what lies between its ends, and nothing when they are reversed. */
  lemma RangeMatches(low: char, high: char, text: string)
    requires high != ']'
    ensures low != '!' ==>
      (InLanguage(Tokenize("[" + [low] + "-" + [high] + "]"), text) <==> |text| == 1 && low <= text[0] <= high)
    ensures InLanguage(Tokenize("[!" + [low] + "-" + [high] + "]"), text) <==> |text| == 1 && !(low <= text[0] <= high)
  {
    var items := [Span(low, high)];
    SpanIsPlain(low, high);
    assert "[" + [low] + "-" + [high] + "]" == "[" + Spell(items) + "]";
    assert "[!" + [low] + "-" + [high] + "]" == "[!" + Spell(items) + "]";
    assert Spell(items)[1..] == ['-', high];
    NegatedBracketMatches(items, text);
    if low != '!' {
      BracketMatches(items, text);
    }
  }

  /** The wildcards: one character, and any text. */
  lemma WildcardsMatch(text: string)
    ensures InLanguage(Tokenize("?"), text) <==> |text| == 1
    ensures InLanguage(Tokenize("*"), text)
  {
    assert "?"[1..] == "" && "*"[1..] == "";
    assert Tokenize("?") == [Any] && Tokenize("*") == [Star];
    OneToken(Any, text);
    assert [text][1..] == [];
    assert Splits([Star], [text], text);
  }

  /** An opening bracket that nothing closes stands for itself; a closing one right after it, or
      after its `!`, closes nothing. */
  lemma UnclosedBracket(rest: string, text: string)
    requires Inner(rest) == "" || ']' !in Inner(rest)[1..]
    ensures InLanguage(Tokenize("[" + rest), text) <==>
      text != "" && text[0] == '[' && InLanguage(Tokenize(rest), text[1..])
  {
    var pattern := "[" + rest;
    assert pattern[1..] == rest;
    assert CloseAt(rest) == |rest| by {
      var skipped := |rest| - |Inner(rest)|;
      assert forall k :: skipped < k < |rest| ==> rest[k] == Inner(rest)[1..][k - skipped - 1];
    }
    assert Tokenize(pattern) == [Literal('[')] + Tokenize(rest);
    FrontSingle(Tokenize(pattern), text);
  }
}
