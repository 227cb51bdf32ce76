/** From characters to trees: the lexer's tokens are what the parser expects, and an expression printed as text
    comes back as the same tree. */
module Text {
  import opened Options
  import opened Tokens
  import opened Grammar
  import Lexer
  import ShiftReduce
  import opened Precedence
  import Parser

  // ---------- lex, then parse ----------

  /** A file's tokens between the two markers. */
  function Framed(ts: seq<Token>): seq<Token> {
    [Token(FBEG, 0, 0)] + ts + [Token(FEND, 0, 0)]
  }

  /** No token the lexer cuts off is one of the markers. */
  lemma FramedIsMarked(input: string)
    ensures var ts := Lexer.TokensFrom(input, 0);
      ts.Some? ==> ShiftReduce.Marked(Framed(ts.value))
  {
    hide Lexer.TokensFrom, Lexer.Accepts;
    Lexer.TokensAreLongestMatches(input, 0);
    var ts := Lexer.TokensFrom(input, 0);
    if ts.Some? {
      forall k | 0 <= k < |ts.value| ensures ts.value[k].tk < COUNT {
        assert Lexer.LongestMatch(input, ts.value[k]);
      }
    }
  }

  /** The tree of a text; None when it is rejected. */
  function TreeOf(input: string): Option<Node> {
    var ts := Lexer.TokensFrom(input, 0);
    if ts.None? then None
    else
      FramedIsMarked(input);
      var out := ShiftReduce.Outcome(Framed(ts.value));
      if ShiftReduce.Accepted(out) then Some(out[0]) else None
  }

  /** Reading a file: lex, and parse what came out. */
  method Read(input: string) returns (root: Option<Node>)
    ensures root == TreeOf(input)
  {
    hide Lexer.TokensFrom, ShiftReduce.Outcome, ShiftReduce.Marked;
    var ok, tokens := Lexer.Lex(input);
    if !ok {
      return None;
    }
    FramedIsMarked(input);
    var parser := new Parser.Parser();
    root := parser.Parse(tokens);
  }

  /** The tree of an accepted text derives a whole file, and its leaves in order are the markers and the longest matches
      into which the text is cut, without the whitespace and the comments. */
  lemma TreesAreOfTheText(input: string)
    ensures TreeOf(input).Some? ==>
      var root, ts := TreeOf(input).value, Lexer.TokensFrom(input, 0);
      && ts.Some? && Lexer.Tokenizes(input, 0, ts.value) && Lexer.CutCleanly(input, ts.value)
      && Derived(root) && root.Branch? && root.nt == Unit && Leaves(root) == Framed(ShiftReduce.Kept(ts.value))
  {
    hide Lexer.TokensFrom, Lexer.Tokenizes, Lexer.CutCleanly, ShiftReduce.Outcome, ShiftReduce.Marked, Derived, Leaves, ShiftReduce.Kept;
    if TreeOf(input).Some? {
      var ts := Lexer.TokensFrom(input, 0).value;
      Lexer.TokensAreLongestMatches(input, 0);
      Lexer.CutsCleanly(input, 0);
      FramedIsMarked(input);
      ShiftReduce.ParserSound(Framed(ts));
      KeptFramed(ts);
    }
  }

  lemma {:induction false} KeptConcat(a: seq<Token>, b: seq<Token>)
    ensures ShiftReduce.Kept(a + b) == ShiftReduce.Kept(a) + ShiftReduce.Kept(b)
    decreases |a|
  {
    if a == [] {
      assert a + b == b;
    } else {
      assert (a + b)[1..] == a[1..] + b;
      KeptConcat(a[1..], b);
    }
  }

  lemma KeptFramed(ts: seq<Token>)
    ensures ShiftReduce.Kept(Framed(ts)) == Framed(ShiftReduce.Kept(ts))
  {
    var beg, end := [Token(FBEG, 0, 0)], [Token(FEND, 0, 0)];
    KeptConcat(beg + ts, end);
    KeptConcat(beg, ts);
    assert end[1..] == [] && beg[1..] == [];
  }

  // ---------- words that are cut where they were joined ----------

  /** A stretch of text and the token kind it is meant to be. */
  datatype Word = Word(tk: nat, text: string)

  function Joined(ws: seq<Word>): string {
    if ws == [] then "" else ws[0].text + Joined(ws[1..])
  }

  /** The tokens that cover the words one after the other. */
  function Spread(ws: seq<Word>, b: nat): (ts: seq<Token>)
    ensures |ts| == |ws|
    decreases |ws|
  {
    if ws == [] then [] else [Token(ws[0].tk, b, b + |ws[0].text|)] + Spread(ws[1..], b + |ws[0].text|)
  }

  /** The word is a longest match of its kind by itself. */
  predicate Good(w: Word) {
    w.text != "" && w.tk < COUNT && Lexer.Winner(w.text, COUNT) == w.tk
  }

  /** No automaton goes on from a into b. */
  ghost predicate Boundary(a: Word, b: Word) {
    b.text != "" && !Lexer.Live(a.text + [b.text[0]])
  }

  /** Words that do not run into one another. */
  ghost predicate Separate(ws: seq<Word>) {
    ws != [] ==> Good(ws[0]) && (|ws| > 1 ==> Boundary(ws[0], ws[1])) && Separate(ws[1..])
  }

  lemma GoodIsLive(w: Word)
    requires Good(w)
    ensures Lexer.Live(w.text) && Lexer.Accepts(w.tk, w.text)
  {
    hide Lexer.Winner, Lexer.Scan;
    Lexer.WinnerWins(w.text, COUNT);
    assert Lexer.Scan(w.tk, w.text).0 != Lexer.Reject;
  }

  lemma WordAt(input: string, b: nat, ws: seq<Word>)
    requires b <= |input| && input[b..] == Joined(ws) && ws != []
    ensures var e := b + |ws[0].text|;
      && e <= |input| && input[b..e] == ws[0].text && input[e..] == Joined(ws[1..])
      && (|ws| > 1 && ws[1].text != "" ==> e < |input| && input[b..e + 1] == ws[0].text + [ws[1].text[0]])
      && (|ws| == 1 ==> e == |input|)
  {
    var e := b + |ws[0].text|;
    assert |input[b..]| == |ws[0].text| + |Joined(ws[1..])|;
    assert input[b..e] == input[b..][..|ws[0].text|] == ws[0].text;
    assert input[e..] == input[b..][|ws[0].text|..] == Joined(ws[1..]);
    if |ws| > 1 && ws[1].text != "" {
      assert Joined(ws[1..])[0] == ws[1].text[0];
      assert input[e] == input[e..][0];
      assert input[b..e + 1] == input[b..e] + [input[e]];
    }
  }

  /** Words that do not run into one another are what the lexer cuts their text into. */
  lemma {:induction false} LexesBack(input: string, b: nat, ws: seq<Word>)
    requires b <= |input| && input[b..] == Joined(ws) && ws != [] && Separate(ws)
    ensures Lexer.TokensFrom(input, b) == Some(Spread(ws, b))
    decreases |ws|
  {
    hide Lexer.Live, Lexer.Winner, Lexer.Reach, Joined;
    var e := b + |ws[0].text|;
    WordAt(input, b, ws);
    GoodIsLive(ws[0]);
    Lexer.ReachIs(input, b, e);
    if |ws| > 1 {
      LexesBack(input, e, ws[1..]);
    } else {
      assert Spread(ws, b) == [Token(ws[0].tk, b, e)];
    }
  }

  // ---------- what a space separates ----------

  const SPACE: Word := Word(WSPC, " ")

  const SEMICOLON: Word := Word(SCOL, ";")

  /** Neither whitespace nor a comment. */
  predicate Solid(tk: nat) {
    tk < COUNT && tk != WSPC && tk != LCOM && tk != BCOM
  }

  lemma ScanOne(tk: nat, c: char)
    requires tk < COUNT
    ensures Lexer.Scan(tk, [c]) == Lexer.Automaton(tk, 0, c)
  {
    hide Lexer.Automaton;
    assert [c][..0] == [];
  }

  lemma ScanLast(tk: nat, w: string, c: char)
    requires tk < COUNT
    ensures var (st, s) := Lexer.Scan(tk, w);
      Lexer.Scan(tk, w + [c]) == if st == Lexer.Reject then (Lexer.Reject, s) else Lexer.Automaton(tk, s, c)
  {
    hide Lexer.Automaton;
    assert (w + [c])[..|w|] == w;
  }

  /** An automaton that is still in the race let the first character pass. */
  lemma FirstPassed(tk: nat, w: string)
    requires tk < COUNT && w != [] && Lexer.Scan(tk, w).0 != Lexer.Reject
    ensures Lexer.Automaton(tk, 0, w[0]).0 != Lexer.Reject
  {
    hide Lexer.Scan, Lexer.Automaton;
    assert w[..1] == [w[0]];
    ScanOne(tk, w[0]);
    if Lexer.Scan(tk, w[..1]).0 == Lexer.Reject {
      Lexer.RejectedForGood(tk, w, 1);
    }
  }

  predicate PlainChar(c: char) {
    !Lexer.IsSpace(c) && c != '"'
  }

  lemma KeywordChars(tk: nat, s: nat)
    requires LPAR <= tk < ASSN && s < |Lexer.Spelling(tk)|
    ensures PlainChar(Lexer.Spelling(tk)[s])
  {
  }

  lemma OperatorChars(tk: nat, s: nat)
    requires ASSN <= tk < EQUL && s < |Lexer.Spelling(tk)|
    ensures PlainChar(Lexer.Spelling(tk)[s])
  {
  }

  lemma MoreOperatorChars(tk: nat, s: nat)
    requires EQUL <= tk < SZOF && s < |Lexer.Spelling(tk)|
    ensures PlainChar(Lexer.Spelling(tk)[s])
  {
  }

  lemma MoreKeywordChars(tk: nat, s: nat)
    requires SZOF <= tk < COUNT && s < |Lexer.Spelling(tk)|
    ensures PlainChar(Lexer.Spelling(tk)[s])
  {
  }

  lemma SpellingChars(tk: nat, s: nat)
    requires LPAR <= tk < COUNT && s < |Lexer.Spelling(tk)|
    ensures Lexer.Spelling(tk)[s] != ' ' && !Lexer.IsSpace(Lexer.Spelling(tk)[s]) && Lexer.Spelling(tk)[s] != '"'
  {
    hide Lexer.Spelling;
    if tk < ASSN {
      KeywordChars(tk, s);
    } else if tk < EQUL {
      OperatorChars(tk, s);
    } else if tk < SZOF {
      MoreOperatorChars(tk, s);
    } else {
      MoreKeywordChars(tk, s);
    }
  }

  lemma SpellingsNotComments(tk: nat)
    requires LPAR <= tk < COUNT
    ensures Lexer.Spelling(tk) != "" && (|Lexer.Spelling(tk)| > 1 && Lexer.Spelling(tk)[0] == '/' ==> Lexer.Spelling(tk)[1] == '=')
  {
  }

  /** The automaton of a spelling stays in the race along its prefixes. */
  lemma {:induction false} SpelledPrefix(tk: nat, w: string)
    requires LPAR <= tk < COUNT && Lexer.Scan(tk, w).0 != Lexer.Reject
    ensures Lexer.Scan(tk, w).1 == |w| <= |Lexer.Spelling(tk)| && w == Lexer.Spelling(tk)[..|w|]
    ensures w != [] && Lexer.Scan(tk, w).0 == Lexer.Accept ==> w == Lexer.Spelling(tk)
    decreases |w|
  {
    hide Lexer.Spelling;
    if w != [] {
      var v, c := w[..|w| - 1], w[|w| - 1];
      ScanLast(tk, v, c);
      assert v + [c] == w;
      SpelledPrefix(tk, v);
    }
  }

  /** A solid word begins neither with whitespace nor, unless it is a string, with a quote; and it does not begin a
      comment. */
  lemma SolidStart(w: Word)
    requires Solid(w.tk) && w.text != "" && Lexer.Accepts(w.tk, w.text)
    ensures !Lexer.IsSpace(w.text[0]) && (w.tk != STRL ==> w.text[0] != '"')
    ensures |w.text| > 1 && w.text[0] == '/' ==> w.text[1] == '='
  {
    hide Lexer.Scan, Lexer.Spelling;
    FirstPassed(w.tk, w.text);
    if w.tk >= LPAR {
      SpelledPrefix(w.tk, w.text);
      SpellingsNotComments(w.tk);
      SpellingChars(w.tk, 0);
    }
  }

  /** A comment's automaton has no business in a word that does not begin a comment. */
  lemma NoComment(k: nat, w: string)
    requires (k == LCOM || k == BCOM) && w != "" && (|w| > 1 && w[0] == '/' ==> w[1] == '=')
    ensures Lexer.Scan(k, w).0 == Lexer.Reject || Lexer.Scan(k, w).1 == 1
  {
    hide Lexer.Scan;
    assert w[..1] == [w[0]];
    ScanOne(k, w[0]);
    if |w| == 1 {
      assert w == [w[0]];
    } else if w[0] == '/' {
      assert w[..2] == [w[0]] + [w[1]];
      ScanLast(k, [w[0]], w[1]);
      Lexer.RejectedForGood(k, w, 2);
    } else {
      Lexer.RejectedForGood(k, w, 1);
    }
  }

  lemma NoString(w: string)
    requires w != "" && w[0] != '"'
    ensures Lexer.Scan(STRL, w).0 == Lexer.Reject
  {
    hide Lexer.Scan;
    assert w[..1] == [w[0]];
    ScanOne(STRL, w[0]);
    Lexer.RejectedForGood(STRL, w, 1);
  }

  lemma NoBlank(w: string)
    requires w != "" && !Lexer.IsSpace(w[0])
    ensures Lexer.Scan(WSPC, w).0 == Lexer.Reject
  {
    hide Lexer.Scan;
    assert w[..1] == [w[0]];
    ScanOne(WSPC, w[0]);
    Lexer.RejectedForGood(WSPC, w, 1);
  }

  /** A closed string goes no further. */
  lemma ClosedString(w: string)
    requires w != "" && Lexer.Scan(STRL, w).0 == Lexer.Accept
    ensures Lexer.Scan(STRL, w).1 == 2
  {
    hide Lexer.Scan;
    var v, c := w[..|w| - 1], w[|w| - 1];
    assert v + [c] == w;
    ScanLast(STRL, v, c);
  }

  /** A space ends every solid word. */
  lemma SpaceAfter(w: Word)
    requires Good(w) && Solid(w.tk)
    ensures Boundary(w, SPACE)
  {
    hide Lexer.Live, Lexer.Winner, Lexer.Scan, Lexer.Accepts;
    GoodIsLive(w);
    SolidStart(w);
    forall k | 0 <= k < COUNT ensures Lexer.Scan(k, w.text + [' ']).0 == Lexer.Reject {
      SpaceEnds(w, k);
    }
    NotLive(w.text + [' ']);
  }

  lemma NotLive(w: string)
    requires forall k :: 0 <= k < COUNT ==> Lexer.Scan(k, w).0 == Lexer.Reject
    ensures !Lexer.Live(w)
  {
    hide Lexer.Scan;
  }

  lemma SpaceEnds(w: Word, k: nat)
    requires Solid(w.tk) && w.text != "" && Lexer.Accepts(w.tk, w.text) && k < COUNT
    ensures Lexer.Scan(k, w.text + [' ']).0 == Lexer.Reject
  {
    hide Lexer.Scan, Lexer.Spelling;
    SolidStart(w);
    ScanLast(k, w.text, ' ');
    if k == LCOM || k == BCOM {
      NoComment(k, w.text);
    } else if k == WSPC {
      NoBlank(w.text);
    } else if k == STRL {
      if w.tk == STRL {
        ClosedString(w.text);
      } else {
        NoString(w.text);
      }
    } else if k >= LPAR {
      var s := Lexer.Scan(k, w.text).1;
      if s < |Lexer.Spelling(k)| {
        SpellingChars(k, s);
      }
    }
  }

  /** And every solid word ends the space before it. */
  lemma SpaceBefore(w: Word)
    requires Good(w) && Solid(w.tk)
    ensures Boundary(SPACE, w)
  {
    hide Lexer.Live, Lexer.Winner, Lexer.Scan, Lexer.Accepts, Lexer.Spelling;
    GoodIsLive(w);
    SolidStart(w);
    var c := w.text[0];
    forall k | 0 <= k < COUNT ensures Lexer.Scan(k, " " + [c]).0 == Lexer.Reject {
      ScanOne(k, ' ');
      ScanLast(k, " ", c);
      if k >= LPAR {
        SpellingsNotComments(k);
        SpellingChars(k, 0);
      }
    }
    NotLive(" " + [c]);
  }

  lemma SpaceIsGood()
    ensures Good(SPACE)
  {
    hide Lexer.Winner, Lexer.Spelling, Lexer.Scan;
    assert " " == [' '];
    forall k | 0 <= k < COUNT ensures Lexer.Accepts(k, " ") <==> k == WSPC {
      ScanOne(k, ' ');
      if k >= LPAR {
        SpellingsNotComments(k);
        SpellingChars(k, 0);
      }
    }
    Lexer.WinnerWins(" ", COUNT);
    assert Lexer.Accepts(WSPC, " ");
    assert Lexer.Winner(" ", COUNT) == WSPC;
  }

  // ---------- spelled tokens ----------

  lemma SpellingsDiffer(j: nat, k: nat)
    requires LPAR <= j < k < COUNT
    ensures Lexer.Spelling(j) != Lexer.Spelling(k)
  {
  }

  /** A spelled token, written out, is a longest match of its own kind. */
  lemma SpellingIsGood(tk: nat)
    requires LPAR <= tk < COUNT
    ensures Good(Word(tk, Lexer.Spelling(tk)))
  {
    hide Lexer.Winner, Lexer.Spelling;
    var w := Lexer.Spelling(tk);
    SpellingsNotComments(tk);
    SpellingAccepted(tk, |w|);
    assert w[..|w|] == w;
    Lexer.WinnerWins(w, COUNT);
    forall k | tk < k < COUNT ensures !Lexer.Accepts(k, w) {
      if Lexer.Accepts(k, w) {
        SpelledPrefix(k, w);
        SpellingsDiffer(tk, k);
      }
    }
    assert Lexer.Accepts(tk, w);
    assert Lexer.Winner(w, COUNT) == tk;
  }

  lemma {:induction false} SpellingAccepted(tk: nat, n: nat)
    requires LPAR <= tk < COUNT && n <= |Lexer.Spelling(tk)|
    ensures var r := Lexer.Scan(tk, Lexer.Spelling(tk)[..n]);
      r == if n == 0 then (Lexer.Hungry, 0) else (if n == |Lexer.Spelling(tk)| then Lexer.Accept else Lexer.Hungry, n)
    decreases n
  {
    hide Lexer.Spelling, Lexer.Scan;
    var w := Lexer.Spelling(tk);
    if n > 0 {
      SpellingAccepted(tk, n - 1);
      assert w[..n] == w[..n - 1] + [w[n - 1]];
      ScanLast(tk, w[..n - 1], w[n - 1]);
    } else {
      ScanNothing(tk);
      assert w[..0] == [];
    }
  }

  lemma ScanNothing(tk: nat)
    requires tk < COUNT
    ensures Lexer.Scan(tk, []) == (Lexer.Hungry, 0)
  {
  }

  // ---------- writing a tree out and reading it back ----------

  /** An expression over names, numbers and strings, as one would write it down. */
  datatype Source = Item(w: Word) | Join(l: Source, op: nat, r: Source)

  function Spelled(tk: nat): Word
    requires LPAR <= tk < COUNT
  {
    Word(tk, Lexer.Spelling(tk))
  }

  /** Operands are longest matches of their kinds, operators binary. */
  predicate WellSpelled(t: Source) {
    match t
    case Item(w) => Good(w) && (w.tk == NAME || w.tk == NMBR || w.tk == STRL)
    case Join(l, op, r) => WellSpelled(l) && ASSN <= op <= CAST && WellSpelled(r)
  }

  /** The tree needs no parentheses: precedence and associativity say the same. */
  predicate NeedsNoParentheses(t: Source) {
    t.Join? ==>
      && NeedsNoParentheses(t.l) && NeedsNoParentheses(t.r)
      && (t.l.Join? ==> !ShiftReduce.Yields(t.l.op, t.op))
      && (t.r.Join? ==> ShiftReduce.Yields(t.op, t.r.op))
  }

  /** The words of a tree, left to right. */
  function Words(t: Source): (ws: seq<Word>)
    requires WellSpelled(t)
    ensures ws != []
  {
    match t
    case Item(w) => [w]
    case Join(l, op, r) => Words(l) + [Spelled(op)] + Words(r)
  }

  /** Single spaces between the words. */
  function Spaced(ws: seq<Word>): seq<Word> {
    if |ws| <= 1 then ws else [ws[0], SPACE] + Spaced(ws[1..])
  }

  /** A file with one statement. */
  function Print(t: Source): string
    requires WellSpelled(t)
  {
    Joined(Spaced(Words(t) + [SEMICOLON]))
  }

  predicate AllSolid(ws: seq<Word>) {
    forall i :: 0 <= i < |ws| ==> Good(ws[i]) && Solid(ws[i].tk)
  }

  lemma SpellingsAreSolid(tk: nat)
    requires LPAR <= tk < COUNT
    ensures Good(Spelled(tk)) && Solid(Spelled(tk).tk)
  {
    hide Lexer.Spelling, Lexer.Winner;
    SpellingIsGood(tk);
  }

  lemma {:induction false} WordsAreSolid(t: Source)
    requires WellSpelled(t)
    ensures AllSolid(Words(t))
  {
    hide Good, Spelled;
    if t.Join? {
      WordsAreSolid(t.l);
      WordsAreSolid(t.r);
      SpellingsAreSolid(t.op);
      OpIs(t.op);
    }
  }

  lemma OpIs(tk: nat)
    requires LPAR <= tk < COUNT
    ensures Spelled(tk).tk == tk
  {
  }

  lemma {:induction false} SpacedIsSeparate(ws: seq<Word>)
    requires AllSolid(ws)
    ensures Separate(Spaced(ws)) && (ws != [] ==> Spaced(ws) != [] && Spaced(ws)[0] == ws[0])
    decreases |ws|
  {
    hide Good, Boundary, Solid;
    if |ws| == 1 {
      assert ws[1..] == [];
    } else if |ws| > 1 {
      var rest := Spaced(ws[1..]);
      SpacedIsSeparate(ws[1..]);
      SpaceIsGood();
      SpaceAfter(ws[0]);
      SpaceBefore(ws[1]);
      assert [ws[0], SPACE] + rest == [ws[0]] + ([SPACE] + rest);
      assert ([SPACE] + rest)[1..] == rest && ([ws[0]] + ([SPACE] + rest))[1..] == [SPACE] + rest;
      assert Separate([SPACE] + rest);
    }
  }

  /** Where the words of a spaced text stand. */
  function Places(ws: seq<Word>, b: nat): (ts: seq<Token>)
    ensures |ts| == |ws|
    decreases |ws|
  {
    if ws == [] then [] else [Token(ws[0].tk, b, b + |ws[0].text|)] + Places(ws[1..], b + |ws[0].text| + 1)
  }

  lemma SpacedStep(ws: seq<Word>)
    ensures |ws| <= 1 ==> Spaced(ws) == ws
    ensures |ws| > 1 ==> Spaced(ws) == [ws[0], SPACE] + Spaced(ws[1..])
  {
  }

  lemma SpreadTwo(w: Word, rest: seq<Word>, b: nat)
    ensures var e := b + |w.text|;
      Spread([w, SPACE] + rest, b) == [Token(w.tk, b, e), Token(WSPC, e, e + 1)] + Spread(rest, e + 1)
  {
    var e := b + |w.text|;
    assert ([w, SPACE] + rest)[1..] == [SPACE] + rest && ([SPACE] + rest)[1..] == rest;
    assert Spread([SPACE] + rest, e) == [Token(WSPC, e, e + 1)] + Spread(rest, e + 1);
  }

  lemma SpreadOne(w: Word, b: nat)
    ensures Spread([w], b) == [Token(w.tk, b, b + |w.text|)]
  {
    assert [w][1..] == [];
  }

  lemma KeptTwo(t: Token, sp: Token, rest: seq<Token>)
    requires !Skipped(t) && Skipped(sp)
    ensures ShiftReduce.Kept([t, sp] + rest) == [t] + ShiftReduce.Kept(rest)
  {
    hide Skipped;
    assert ([t, sp] + rest)[1..] == [sp] + rest && ([sp] + rest)[1..] == rest;
    assert ShiftReduce.Kept([sp] + rest) == ShiftReduce.Kept(rest);
  }

  lemma KeptOne(t: Token)
    requires !Skipped(t)
    ensures ShiftReduce.Kept([t]) == [t] && ShiftReduce.Kept([]) == []
  {
    assert [t][1..] == [];
  }

  lemma PlacesStep(ws: seq<Word>, b: nat)
    requires ws != []
    ensures Places(ws, b) == [Token(ws[0].tk, b, b + |ws[0].text|)] + Places(ws[1..], b + |ws[0].text| + 1)
    ensures |ws| == 1 ==> Places(ws[1..], b + |ws[0].text| + 1) == []
  {
  }

  lemma Blanks(tk: nat, b: nat, e: nat)
    ensures Skipped(Token(WSPC, b, e)) && (Solid(tk) ==> !Skipped(Token(tk, b, e)))
  {
  }

  /** Without the spaces the tokens are those of the words. */
  lemma {:induction false} KeptPlaces(ws: seq<Word>, b: nat)
    requires ws != [] && forall i :: 0 <= i < |ws| ==> Solid(ws[i].tk)
    ensures ShiftReduce.Kept(Spread(Spaced(ws), b)) == Places(ws, b)
    decreases |ws|
  {
    hide *;
    var w := ws[0];
    var e := b + |w.text|;
    SpacedStep(ws);
    PlacesStep(ws, b);
    Blanks(w.tk, b, e);
    Blanks(w.tk, e, e + 1);
    if |ws| == 1 {
      assert ws == [w];
      SpreadOne(w, b);
      KeptOne(Token(w.tk, b, e));
    } else {
      SpreadTwo(w, Spaced(ws[1..]), b);
      KeptTwo(Token(w.tk, b, e), Token(WSPC, e, e + 1), Spread(Spaced(ws[1..]), e + 1));
      KeptPlaces(ws[1..], e + 1);
    }
  }

  /** The i-th token covers the i-th word. */
  predicate Covers(input: string, t: Token, w: Word) {
    t.tk == w.tk && t.beg <= t.end <= |input| && input[t.beg..t.end] == w.text
  }

  lemma {:induction false} PlacesCover(input: string, b: nat, ws: seq<Word>)
    requires b <= |input| && input[b..] == Joined(Spaced(ws))
    ensures forall i :: 0 <= i < |ws| ==> Covers(input, Places(ws, b)[i], ws[i])
    decreases |ws|
  {
    hide Joined, Covers;
    if ws != [] {
      var e := b + |ws[0].text|;
      WordAt(input, b, Spaced(ws));
      CoversIs(input, Token(ws[0].tk, b, e), ws[0]);
      if |ws| > 1 {
        var rest := [SPACE] + Spaced(ws[1..]);
        assert Spaced(ws)[1..] == rest && rest[1..] == Spaced(ws[1..]);
        WordAt(input, e, rest);
        PlacesCover(input, e + 1, ws[1..]);
      }
    }
  }

  lemma CoversIs(input: string, t: Token, w: Word)
    requires t.tk == w.tk && t.beg <= t.end <= |input| && input[t.beg..t.end] == w.text
    ensures Covers(input, t, w)
  {
  }

  /** The tree with a token at each of its words. */
  function Labelled(t: Source, ts: seq<Token>): Tree
    requires WellSpelled(t) && |ts| == |Words(t)|
    decreases t
  {
    match t
    case Item(_) => Operand(ts[0])
    case Join(l, op, r) =>
      var n := |Words(l)|;
      Binary(Labelled(l, ts[..n]), ts[n], Labelled(r, ts[n + 1..]))
  }

  /** The tokens have the kinds of the tree's words. */
  predicate SameKinds(t: Source, ts: seq<Token>)
    requires WellSpelled(t)
  {
    |ts| == |Words(t)| && forall i :: 0 <= i < |ts| ==> ts[i].tk == Words(t)[i].tk
  }

  lemma WordsOf(t: Source)
    requires WellSpelled(t)
    ensures t.Join? ==> WellSpelled(t.l) && WellSpelled(t.r) && LPAR <= t.op < COUNT
    ensures t.Join? ==> Words(t) == Words(t.l) + [Spelled(t.op)] + Words(t.r)
  {
    hide Good, Spelled;
  }

  lemma SplitKinds(ts: seq<Token>, a: seq<Word>, w: Word, b: seq<Word>)
    requires |ts| == |a| + 1 + |b| && forall i :: 0 <= i < |ts| ==> ts[i].tk == (a + [w] + b)[i].tk
    ensures ts[|a|].tk == w.tk && ts == ts[..|a|] + [ts[|a|]] + ts[|a| + 1..]
    ensures forall i :: 0 <= i < |a| ==> ts[..|a|][i].tk == a[i].tk
    ensures forall i :: 0 <= i < |b| ==> ts[|a| + 1..][i].tk == b[i].tk
  {
    var all := a + [w] + b;
    assert all[|a|] == w;
    forall i | 0 <= i < |b| ensures ts[|a| + 1..][i].tk == b[i].tk {
      assert all[|a| + 1 + i] == b[i];
    }
  }

  lemma LabelledJoin(t: Source, ts: seq<Token>)
    requires WellSpelled(t) && t.Join? && |ts| == |Words(t)| && |Words(t)| == |Words(t.l)| + 1 + |Words(t.r)|
    ensures var n := |Words(t.l)|;
      Labelled(t, ts) == Binary(Labelled(t.l, ts[..n]), ts[n], Labelled(t.r, ts[n + 1..]))
  {
    hide Good, Words, Spelled;
  }

  lemma KindsSplit(t: Source, ts: seq<Token>)
    requires WellSpelled(t) && t.Join? && SameKinds(t, ts) && WellSpelled(t.l) && WellSpelled(t.r)
    ensures var n := |Words(t.l)|;
      && n < |ts| && SameKinds(t.l, ts[..n]) && ts[n].tk == t.op && SameKinds(t.r, ts[n + 1..])
      && ts == ts[..n] + [ts[n]] + ts[n + 1..]
      && Labelled(t, ts) == Binary(Labelled(t.l, ts[..n]), ts[n], Labelled(t.r, ts[n + 1..]))
  {
    hide WellSpelled, Words, Spelled, Labelled;
    WordsOf(t);
    OpIs(t.op);
    SplitKinds(ts, Words(t.l), Spelled(t.op), Words(t.r));
    LabelledJoin(t, ts);
  }

  lemma OperatorKind(t: Source, op: Token)
    requires WellSpelled(t) && t.Join? && op.tk == t.op
    ensures IsBinary(op) && WellSpelled(t.l) && WellSpelled(t.r)
  {
    hide Good;
  }

  lemma ItemLabelled(t: Source, ts: seq<Token>)
    requires WellSpelled(t) && t.Item? && SameKinds(t, ts)
    ensures |ts| == 1 && Labelled(t, ts) == Operand(ts[0]) && IsOperand(ts[0]) && ts == [ts[0]]
  {
    hide Good;
    assert Words(t)[0] == t.w;
  }

  lemma KindsLength(t: Source, ts: seq<Token>)
    requires WellSpelled(t) && SameKinds(t, ts)
    ensures |ts| == |Words(t)|
  {
    hide WellSpelled, Words;
  }

  lemma FlatIs(u: Tree)
    ensures u.Binary? ==> Flat(u) == Flat(u.l) + [u.op] + Flat(u.r)
    ensures u.Operand? ==> Flat(u) == [u.tok]
    ensures u.Operand? ==> Fits(u)
  {
  }

  lemma {:induction false} LabelledIs(t: Source, ts: seq<Token>)
    requires WellSpelled(t) && SameKinds(t, ts)
    ensures var u := Labelled(t, ts);
      Flat(u) == ts && Lexical(u) && (Fits(u) <==> NeedsNoParentheses(t))
      && (t.Join? <==> u.Binary?) && (t.Join? ==> u.op.tk == t.op)
  {
    hide Good, ShiftReduce.Yields, Words, Labelled, SameKinds, Flat, IsBinary, IsOperand, WellSpelled;
    KindsLength(t, ts);
    FlatIs(Labelled(t, ts));
    if t.Join? {
      WordsOf(t);
      KindsSplit(t, ts);
      var n := |Words(t.l)|;
      OperatorKind(t, ts[n]);
      LabelledIs(t.l, ts[..n]);
      LabelledIs(t.r, ts[n + 1..]);
    } else {
      ItemLabelled(t, ts);
    }
  }

  /** Round trip over characters: an expression that needs no parentheses, written out as a statement, is read back as
      that very tree, each leaf a token that covers the word it came from. */
  lemma TextReadsBack(t: Source) returns (u: Tree, semi: Token, ts: seq<Token>)
    requires WellSpelled(t) && NeedsNoParentheses(t)
    ensures |ts| == |Words(t)| && u == Labelled(t, ts) && Fits(u) && Flat(u) == ts
    ensures forall i :: 0 <= i < |ts| ==> Covers(Print(t), ts[i], Words(t)[i])
    ensures Covers(Print(t), semi, SEMICOLON)
    ensures TreeOf(Print(t))
            == Some(Branch(Unit, [Leaf(Token(FBEG, 0, 0)), Branch(Stmt, [ToNode(u), Leaf(semi)]), Leaf(Token(FEND, 0, 0))]))
  {
    hide *;
    var input, words := Print(t), Words(t) + [SEMICOLON];
    PrintIs(t);
    PrintedSolid(t);
    SpacedIsSeparate(words);
    assert input[0..] == input;
    LexesBack(input, 0, Spaced(words));
    SolidKinds(words);
    KeptPlaces(words, 0);
    PlacesCover(input, 0, words);
    var n, all := |Words(t)|, Places(words, 0);
    ts, semi := all[..n], all[n];
    assert all == ts + [semi];
    forall i | 0 <= i < n ensures ts[i].tk == Words(t)[i].tk && Covers(input, ts[i], Words(t)[i]) {
      assert words[i] == Words(t)[i] && all[i] == ts[i];
      CoversKind(input, all[i], words[i]);
    }
    CoversKind(input, all[n], words[n]);
    SemicolonIs();
    u := Labelled(t, ts);
    MkKinds(t, ts);
    LabelledIs(t, ts);
    TreeFromTokens(input, Spread(Spaced(words), 0), u, semi);
  }

  lemma CoversKind(input: string, t: Token, w: Word)
    requires Covers(input, t, w)
    ensures t.tk == w.tk
  {
  }

  lemma PrintIs(t: Source)
    requires WellSpelled(t)
    ensures Words(t) != [] && Print(t) == Joined(Spaced(Words(t) + [SEMICOLON]))
  {
    hide Joined, Spaced, Words;
  }

  lemma PrintedSolid(t: Source)
    requires WellSpelled(t)
    ensures AllSolid(Words(t) + [SEMICOLON])
  {
    hide Good, Solid, Words, Spelled, WellSpelled;
    WordsAreSolid(t);
    SpellingsAreSolid(SCOL);
    SemicolonIs();
  }

  lemma SemicolonIs()
    ensures LPAR <= SCOL < COUNT && SEMICOLON == Spelled(SCOL) && SEMICOLON.tk == SCOL
  {
  }

  lemma MkKinds(t: Source, ts: seq<Token>)
    requires WellSpelled(t) && |ts| == |Words(t)| && forall i :: 0 <= i < |ts| ==> ts[i].tk == Words(t)[i].tk
    ensures SameKinds(t, ts)
  {
    hide Words, WellSpelled;
  }

  lemma SolidKinds(ws: seq<Word>)
    requires AllSolid(ws)
    ensures forall i :: 0 <= i < |ws| ==> Solid(ws[i].tk)
  {
    hide Good, Solid;
  }

  lemma TreeFromTokens(input: string, ts: seq<Token>, u: Tree, semi: Token)
    requires Lexer.TokensFrom(input, 0) == Some(ts) && ShiftReduce.Kept(ts) == Flat(u) + [semi]
    requires Fits(u) && Lexical(u) && semi.tk == SCOL
    ensures TreeOf(input)
            == Some(Branch(Unit, [Leaf(Token(FBEG, 0, 0)), Branch(Stmt, [ToNode(u), Leaf(semi)]), Leaf(Token(FEND, 0, 0))]))
  {
    hide Lexer.TokensFrom, ShiftReduce.Kept, ShiftReduce.Marked, ShiftReduce.Outcome, ShiftReduce.Accepted, Flat, Fits, Lexical, ToNode;
    var beg, end := Token(FBEG, 0, 0), Token(FEND, 0, 0);
    FramedIsMarked(input);
    KeptFramed(ts);
    assert [beg] + (Flat(u) + [semi]) + [end] == [beg] + Flat(u) + [semi, end];
    ParserReadsTheTree(Framed(ts), u, beg, semi, end);
  }
}
