/** The lexer: one automaton per token kind, all run in lockstep from the last boundary; when none of them can
    go on, the highest-numbered one that accepts what has been read names the token. */
module Lexer {
  import opened Options
  import opened Tokens

  datatype Status = Accept | Reject | Hungry

  /** The spelling of each token kind from LPAR on. */
  function Spelling(tk: nat): string {
    if tk == LPAR then "(" else if tk == RPAR then ")" else if tk == LBRA then "[" else
    if tk == RBRA then "]" else if tk == LBRC then "{" else if tk == RBRC then "}" else
    if tk == COND then "if" else if tk == ELIF then "elif" else if tk == ELSE then "else" else
    if tk == DOWH then "do" else if tk == WHIL then "while" else if tk == RETN then "return" else
    if tk == USEU then "use" else if tk == TYPE then "type" else if tk == ASSN then "=" else
    if tk == ASPL then "+=" else if tk == ASMI then "-=" else if tk == ASMU then "*=" else
    if tk == ASDI then "/=" else if tk == ASMO then "%=" else if tk == ASLS then "<<=" else
    if tk == ASRS then ">>=" else if tk == ASAN then "&=" else if tk == ASXO then "^=" else
    if tk == ASOR then "|=" else if tk == COLN then ":" else if tk == SCOP then "::" else
    if tk == ATSI then "@" else if tk == MEMB then "." else if tk == AROW then "->" else
    if tk == EQUL then "==" else if tk == NEQL then "!=" else if tk == LTHN then "<" else
    if tk == GTHN then ">" else if tk == LTEQ then "<=" else if tk == GTEQ then ">=" else
    if tk == CONJ then "&&" else if tk == DISJ then "||" else if tk == PLUS then "+" else
    if tk == MINS then "-" else if tk == MULT then "*" else if tk == DIVI then "/" else
    if tk == MODU then "%" else if tk == LSHF then "<<" else if tk == RSHF then ">>" else
    if tk == AMPS then "&" else if tk == CARE then "^" else if tk == PIPE then "|" else
    if tk == COMA then "," else if tk == CAST then "as" else if tk == QUES then "?" else
    if tk == EXCL then "!" else if tk == TILD then "~" else if tk == INCR then "++" else
    if tk == DECR then "--" else if tk == SZOF then "sizeof" else if tk == ALOF then "alignof" else
    if tk == WAIT then "wait" else if tk == WFOR then "for" else if tk == WUNT then "until" else
    if tk == WNOB then "noblock" else if tk == WMSE then "msec" else if tk == WSEC then "sec" else
    if tk == NOIN then "noint" else if tk == SCOL then ";" else if tk == CONS then "const" else
    if tk == EXPO then "exposed" else "static"
  }

  predicate IsAlpha(c: char) {
    'a' <= c <= 'z' || 'A' <= c <= 'Z'
  }

  predicate IsDigit(c: char) {
    '0' <= c <= '9'
  }

  predicate IsSpace(c: char) {
    c == ' ' || c == '\t' || c == '\r' || c == '\n'
  }

  /** TOKEN_DEFINE_n: state s has read s characters of the spelling. */
  function Spelled(word: string, s: nat, c: char): (Status, nat) {
    if s < |word| && c == word[s] then (if s + 1 == |word| then Accept else Hungry, s + 1) else (Reject, 0)
  }

  /** One transition of the automaton of tk; a rejecting transition goes back to the start state. */
  function Automaton(tk: nat, s: nat, c: char): (Status, nat)
    requires tk < COUNT
  {
    if tk == NAME then
      if IsAlpha(c) || c == '_' || (s == 1 && IsDigit(c)) then (Accept, 1) else (Reject, 0)
    else if tk == NMBR then
      (if IsDigit(c) then Accept else Reject, s)
    else if tk == STRL then
      if s == 0 then (if c == '"' then (Hungry, 1) else (Reject, 0))
      else if s == 1 then (if c != '"' then (Hungry, 1) else (Accept, 2))
      else (Reject, 0)
    else if tk == WSPC then
      if IsSpace(c) then (Accept, 1) else (Reject, 0)
    else if tk == LCOM then
      if s == 0 then (if c == '/' then (Hungry, 1) else (Reject, 0))
      else if s == 1 then (if c == '/' then (Hungry, 2) else (Reject, 0))
      else if s == 2 then (if c == '\n' || c == '\r' then (Accept, 3) else (Hungry, 2))
      else (Reject, 0)
    else if tk == BCOM then
      if s == 0 then (if c == '/' then (Hungry, 1) else (Reject, 0))
      else if s == 1 then (if c == '*' then (Hungry, 2) else (Reject, 0))
      else if s == 2 then (if c != '*' then (Hungry, 2) else (Hungry, 3))
      else if s == 3 then (if c == '/' then (Accept, 4) else (Hungry, 2))
      else (Reject, 0)
    else
      Spelled(Spelling(tk), s, c)
  }

  /** Where the automaton of tk stands after w, read from its start state; once it rejects it stays out. */
  function Scan(tk: nat, w: string): (r: (Status, nat))
    requires tk < COUNT
    ensures w == [] ==> r == (Hungry, 0)
  {
    if w == [] then (Hungry, 0)
    else
      var (st, s) := Scan(tk, w[..|w| - 1]);
      if st == Reject then (Reject, s) else Automaton(tk, s, w[|w| - 1])
  }

  predicate Accepts(tk: nat, w: string)
    requires tk < COUNT
  {
    w != [] && Scan(tk, w).0 == Accept
  }

  /** Some automaton is still in the race after w. */
  predicate Live(w: string) {
    exists tk :: 0 <= tk < COUNT && Scan(tk, w).0 != Reject
  }

  /** An automaton that has rejected is back in its start state. */
  lemma {:induction false} RejectedIsReset(tk: nat, w: string)
    requires tk < COUNT
    ensures Scan(tk, w).0 == Reject ==> Scan(tk, w).1 == 0
    ensures tk == NMBR ==> Scan(tk, w).1 == 0
  {
    hide Spelling;
    if w != [] {
      RejectedIsReset(tk, w[..|w| - 1]);
    }
  }

  /** An automaton that has rejected a prefix accepts no longer word. */
  lemma {:induction false} RejectedForGood(tk: nat, w: string, n: nat)
    requires tk < COUNT && n <= |w| && Scan(tk, w[..n]).0 == Reject
    ensures Scan(tk, w).0 == Reject
    decreases |w|
  {
    hide Automaton;
    if n < |w| {
      assert w[..|w| - 1][..n] == w[..n];
      RejectedForGood(tk, w[..|w| - 1], n);
    } else {
      assert w[..n] == w;
    }
  }

  /** The highest-numbered automaton below n that accepts w, or COUNT. */
  function Winner(w: string, n: nat): nat
    requires n <= COUNT
  {
    if n == 0 then COUNT else if Accepts(n - 1, w) then n - 1 else Winner(w, n - 1)
  }

  lemma {:induction false} WinnerWins(w: string, n: nat)
    requires n <= COUNT
    ensures var r := Winner(w, n);
      && (r < n || r == COUNT)
      && (r < n ==> Accepts(r, w) && forall tk :: r < tk < n ==> !Accepts(tk, w))
      && (r == COUNT ==> forall tk :: 0 <= tk < n ==> !Accepts(tk, w))
    decreases n
  {
    hide Accepts;
    if n > 0 {
      WinnerWins(w, n - 1);
    }
  }

  /** The end of the longest stretch from b on that keeps some automaton alive. */
  function Reach(input: string, b: nat, e: nat): (r: nat)
    requires b <= e <= |input|
    ensures e <= r <= |input|
    ensures r < |input| ==> !Live(input[b..r + 1])
    ensures forall m :: e < m <= r ==> Live(input[b..m])
    decreases |input| - e
  {
    if e < |input| && Live(input[b..e + 1]) then Reach(input, b, e + 1) else e
  }

  /** The tokens from b on; None when some stretch is no token. */
  function TokensFrom(input: string, b: nat): (r: Option<seq<Token>>)
    requires b <= |input|
    decreases |input| - b
  {
    var e := Reach(input, b, b);
    var tk := Winner(input[b..e], COUNT);
    if e == b || tk == COUNT then None
    else if e == |input| then Some([Token(tk, b, e)])
    else
      match TokensFrom(input, e)
      case None => None
      case Some(rest) => Some([Token(tk, b, e)] + rest)
  }

  // ---------- what the tokens are ----------

  /** t is a longest match: its automaton accepts it, no automaton with a higher number does, and no automaton
      accepts any longer stretch from the same place. */
  ghost predicate LongestMatch(input: string, t: Token) {
    && t.tk < COUNT && t.beg < t.end <= |input|
    && Accepts(t.tk, input[t.beg..t.end])
    && (forall k :: t.tk < k < COUNT ==> !Accepts(k, input[t.beg..t.end]))
    && (forall k, e :: 0 <= k < COUNT && t.end < e <= |input| ==> !Accepts(k, input[t.beg..e]))
  }

  /** Consecutive stretches from b to the end of the input, each a longest match. */
  ghost predicate Tokenizes(input: string, b: nat, ts: seq<Token>) {
    && ts != [] && ts[0].beg == b && ts[|ts| - 1].end == |input|
    && (forall i :: 0 <= i < |ts| ==> LongestMatch(input, ts[i]))
    && (forall i :: 0 <= i < |ts| - 1 ==> ts[i].end == ts[i + 1].beg)
  }

  lemma AcceptsNothing()
    ensures forall tk, w: string :: 0 <= tk < COUNT && Accepts(tk, w) ==> w != []
  {
  }

  lemma NothingLonger(input: string, b: nat, e: nat, k: nat, e': nat)
    requires b <= e < e' <= |input| && k < COUNT && !Live(input[b..e + 1])
    ensures !Accepts(k, input[b..e'])
  {
    hide Automaton;
    assert input[b..e'][..e + 1 - b] == input[b..e + 1];
    RejectedForGood(k, input[b..e'], e + 1 - b);
  }

  /** The tokens partition the input, and each is the longest match at its place, ties going to the automaton
      with the highest number. */
  lemma {:induction false} TokensAreLongestMatches(input: string, b: nat)
    requires b <= |input|
    ensures TokensFrom(input, b).Some? ==> Tokenizes(input, b, TokensFrom(input, b).value)
    decreases |input| - b
  {
    hide Automaton, Accepts, Live, Winner, Scan;
    var e := Reach(input, b, b);
    var tk := Winner(input[b..e], COUNT);
    WinnerWins(input[b..e], COUNT);
    AcceptsNothing();
    if tk != COUNT {
      forall k, e' | 0 <= k < COUNT && e < e' <= |input| ensures !Accepts(k, input[b..e']) {
        NothingLonger(input, b, e, k, e');
      }
      assert LongestMatch(input, Token(tk, b, e));
      if e < |input| {
        TokensAreLongestMatches(input, e);
        var rest := TokensFrom(input, e);
        if rest.Some? {
          var ts := [Token(tk, b, e)] + rest.value;
          assert TokensFrom(input, b) == Some(ts);
          forall i | 0 <= i < |ts| ensures LongestMatch(input, ts[i]) {
            if i > 0 {
              assert ts[i] == rest.value[i - 1];
            }
          }
          forall i | 0 <= i < |ts| - 1 ensures ts[i].end == ts[i + 1].beg {
            if i > 0 {
              assert ts[i] == rest.value[i - 1] && ts[i + 1] == rest.value[i];
            }
          }
          assert ts[|ts| - 1] == rest.value[|rest.value| - 1];
        }
      }
    }
  }

  /** Longest matches leave no choice: an input is cut into longest matches in at most one way. */
  lemma {:induction false} TokenizationIsUnique(input: string, b: nat, ts: seq<Token>, us: seq<Token>)
    requires Tokenizes(input, b, ts) && Tokenizes(input, b, us)
    ensures ts == us
    decreases |ts|
  {
    hide LongestMatch;
    SameMatch(input, ts[0], us[0]);
    if |ts| == 1 || |us| == 1 {
      OnlyOne(input, b, ts);
      OnlyOne(input, b, us);
      assert ts == [ts[0]] && us == [us[0]];
    } else {
      TailTokenizes(input, b, ts);
      TailTokenizes(input, b, us);
      TokenizationIsUnique(input, ts[0].end, ts[1..], us[1..]);
      assert ts == [ts[0]] + ts[1..] && us == [us[0]] + us[1..];
    }
  }

  lemma NoFurther(input: string, t: Token, k: nat, e: nat)
    requires LongestMatch(input, t) && k < COUNT && t.beg <= e <= |input| && Accepts(k, input[t.beg..e])
    ensures e <= t.end && (e == t.end ==> k <= t.tk)
  {
    hide Accepts;
  }

  lemma SameMatch(input: string, t: Token, u: Token)
    requires LongestMatch(input, t) && LongestMatch(input, u) && t.beg == u.beg
    ensures t == u
  {
    NoFurther(input, t, u.tk, u.end);
    NoFurther(input, u, t.tk, t.end);
  }

  lemma TailTokenizes(input: string, b: nat, ts: seq<Token>)
    requires Tokenizes(input, b, ts) && |ts| > 1
    ensures Tokenizes(input, ts[0].end, ts[1..])
  {
    hide LongestMatch;
    forall i | 0 <= i < |ts[1..]| - 1 ensures ts[1..][i].end == ts[1..][i + 1].beg {
      assert ts[i + 1].end == ts[i + 1 + 1].beg;
    }
  }

  /** A first token that reaches the end of the input is the only one. */
  lemma OnlyOne(input: string, b: nat, ts: seq<Token>)
    requires Tokenizes(input, b, ts)
    ensures |ts| > 1 ==> ts[0].end < |input|
  {
    if |ts| > 1 {
      assert ts[0].end == ts[0 + 1].beg && LongestMatch(input, ts[1]);
    }
  }

  /** When the lexer succeeds: exactly when the input is cut into longest matches at none of which, before the
      end of the input, an automaton is left hoping for more. */
  ghost predicate CutCleanly(input: string, ts: seq<Token>) {
    forall i :: 0 <= i < |ts| && ts[i].end < |input| && ts[i].beg <= ts[i].end ==> !Live(input[ts[i].beg..ts[i].end + 1])
  }

  lemma LiveKept(input: string, b: nat, e: nat, m: nat)
    requires b <= m <= e <= |input| && Live(input[b..e])
    ensures Live(input[b..m])
  {
    hide Automaton;
    var tk :| 0 <= tk < COUNT && Scan(tk, input[b..e]).0 != Reject;
    if Scan(tk, input[b..m]).0 == Reject {
      assert input[b..e][..m - b] == input[b..m];
      RejectedForGood(tk, input[b..e], m - b);
    }
  }

  lemma NotBeyond(input: string, b: nat, e: nat)
    requires b <= e <= |input| && (e < |input| ==> !Live(input[b..e + 1]))
    ensures Reach(input, b, b) <= e
  {
    hide Live;
  }

  lemma ReachIs(input: string, b: nat, e: nat)
    requires b <= e <= |input| && (b < e ==> Live(input[b..e])) && (e < |input| ==> !Live(input[b..e + 1]))
    ensures Reach(input, b, b) == e
  {
    hide Live;
    var r := Reach(input, b, b);
    if r < e {
      LiveKept(input, b, e, r + 1);
    } else {
      NotBeyond(input, b, e);
    }
  }

  lemma FirstToken(input: string, b: nat, ts: seq<Token>)
    requires b <= |input| && Tokenizes(input, b, ts) && CutCleanly(input, ts)
    ensures Reach(input, b, b) == ts[0].end && Winner(input[b..ts[0].end], COUNT) == ts[0].tk && ts[0].beg == b
    ensures b < ts[0].end && (|ts| == 1 ==> ts[0].end == |input|) && (|ts| > 1 ==> ts[0].end < |input|)
  {
    hide Automaton;
    var t := ts[0];
    assert LongestMatch(input, t);
    assert Live(input[b..t.end]) by {
      assert Scan(t.tk, input[b..t.end]).0 != Reject;
    }
    hide Accepts, Live, Scan, Winner;
    ReachIs(input, b, t.end);
    assert |ts| == 1 ==> ts[|ts| - 1] == t;
    OnlyOne(input, b, ts);
    WinnerWins(input[b..t.end], COUNT);
  }

  lemma TailCutsCleanly(input: string, ts: seq<Token>)
    requires CutCleanly(input, ts) && |ts| > 1
    ensures CutCleanly(input, ts[1..])
  {
    hide Live;
    forall i | 0 <= i < |ts[1..]| && ts[1..][i].end < |input| && ts[1..][i].beg <= ts[1..][i].end
      ensures !Live(input[ts[1..][i].beg..ts[1..][i].end + 1])
    {
      assert ts[1..][i] == ts[i + 1];
    }
  }

  lemma {:induction false} SucceedsExactly(input: string, b: nat, ts: seq<Token>)
    requires b <= |input| && Tokenizes(input, b, ts) && CutCleanly(input, ts)
    ensures TokensFrom(input, b) == Some(ts)
    decreases |ts|
  {
    hide Tokenizes, CutCleanly, Reach, Winner, Live;
    FirstToken(input, b, ts);
    if |ts| > 1 {
      TailTokenizes(input, b, ts);
      TailCutsCleanly(input, ts);
      SucceedsExactly(input, ts[0].end, ts[1..]);
    }
    TokenizesSome(input, b, ts);
    assert ts == [ts[0]] + ts[1..];
    assert |ts| == 1 ==> ts == [ts[0]];
  }

  lemma TokenizesSome(input: string, b: nat, ts: seq<Token>)
    requires Tokenizes(input, b, ts)
    ensures ts != [] && ts[0].tk < COUNT
  {
    assert LongestMatch(input, ts[0]);
  }

  lemma {:induction false} CutsCleanly(input: string, b: nat)
    requires b <= |input|
    ensures TokensFrom(input, b).Some? ==> CutCleanly(input, TokensFrom(input, b).value)
    decreases |input| - b
  {
    hide Live, Winner;
    var e := Reach(input, b, b);
    var tk := Winner(input[b..e], COUNT);
    if e != b && tk != COUNT && e < |input| {
      CutsCleanly(input, e);
      var rest := TokensFrom(input, e);
      if rest.Some? {
        var ts := [Token(tk, b, e)] + rest.value;
        forall i | 0 <= i < |ts| && ts[i].end < |input| && ts[i].beg <= ts[i].end ensures !Live(input[ts[i].beg..ts[i].end + 1]) {
          if i > 0 {
            assert ts[i] == rest.value[i - 1];
          }
        }
      }
    }
  }

  /** The lexer accepts an input if and only if it can be cut cleanly into longest matches. */
  lemma AcceptedExactly(input: string)
    ensures TokensFrom(input, 0).Some? <==> exists ts :: Tokenizes(input, 0, ts) && CutCleanly(input, ts)
  {
    hide TokensFrom, Tokenizes, CutCleanly;
    TokensAreLongestMatches(input, 0);
    CutsCleanly(input, 0);
    if ts :| Tokenizes(input, 0, ts) && CutCleanly(input, ts) {
      SucceedsExactly(input, 0, ts);
    }
  }

  /** There is no going back to a shorter match: in an unfinished block comment the slash alone would do, but the
      comment's automaton is still hoping when the input ends. */
  lemma NoBacktracking()
    ensures Accepts(DIVI, "/") && Accepts(MULT, "*") && TokensFrom("/*", 0).None?
  {
    var w := "/*";
    SlashAccepted();
    CommentBegun();
    assert w[0..1] == "/" && w[0..2] == w;
    hide Accepts, Live, Scan;
    ReachIs(w, 0, 2);
    forall tk | 0 <= tk < COUNT ensures !Accepts(tk, w) {
      NoTwoCharacterSlash(tk);
    }
    WinnerWins(w, COUNT);
  }

  lemma SlashAccepted()
    ensures Accepts(DIVI, "/") && Accepts(MULT, "*")
  {
    assert "/"[..0] == "" && "*"[..0] == "";
  }

  lemma CommentBegun()
    ensures Live("/*")
  {
    hide Spelling;
    assert "/*"[..1] == "/" && "/"[..0] == "";
    assert Scan(BCOM, "/") == (Hungry, 1);
    assert Scan(BCOM, "/*") == (Hungry, 2);
  }

  lemma NoTwoCharacterSlash(tk: nat)
    requires tk < COUNT
    ensures !Accepts(tk, "/*")
  {
    var w := "/*";
    assert w[..1] == "/" && "/"[..0] == "";
    if tk >= LPAR && Spelling(tk)[0] == '/' {
      assert Spelling(tk) == "/" || Spelling(tk) == "/=";
    }
  }

  // ---------- the loop ----------

  /** Where every automaton stands after w. */
  ghost predicate InStep(prev: array<Status>, states: array<nat>, w: string)
    requires prev.Length == COUNT && states.Length == COUNT
    reads prev, states
  {
    forall tk: nat :: tk < COUNT ==> prev[tk] == Scan(tk, w).0 && states[tk] == Scan(tk, w).1
  }

  /** One step of all automata that are still in the race. */
  method StepAll(input: string, b: nat, e: nat, prev: array<Status>, curr: array<Status>, states: array<nat>)
    returns (alive: bool)
    requires prev.Length == curr.Length == states.Length == COUNT && prev != curr
    requires b <= e < |input| && InStep(prev, states, input[b..e])
    requires forall tk :: 0 <= tk < COUNT && prev[tk] == Reject ==> curr[tk] == Reject
    modifies curr, states
    ensures alive <==> Live(input[b..e + 1])
    ensures forall tk: nat :: tk < COUNT ==> curr[tk] == Scan(tk, input[b..e + 1]).0 && states[tk] == Scan(tk, input[b..e + 1]).1
  {
    hide Automaton;
    var c := input[e];
    ghost var w, w' := input[b..e], input[b..e + 1];
    assert w'[..|w'| - 1] == w && w'[|w'| - 1] == c;
    alive := false;
    var tk := 0;
    while tk < COUNT
      invariant 0 <= tk <= COUNT
      invariant forall k: nat :: k < tk ==> curr[k] == Scan(k, w').0 && states[k] == Scan(k, w').1
      invariant forall k: nat :: tk <= k < COUNT ==> states[k] == Scan(k, w).1 && (prev[k] == Reject ==> curr[k] == Reject)
      invariant alive <==> exists k :: 0 <= k < tk && Scan(k, w').0 != Reject
    {
      if prev[tk] != Reject {
        var (st, s) := Automaton(tk, states[tk], c);
        curr[tk], states[tk] := st, s;
      }
      assert curr[tk] == Scan(tk, w').0 && states[tk] == Scan(tk, w').1;
      if curr[tk] != Reject {
        alive := true;
      }
      tk := tk + 1;
    }
  }

  /** The last automaton whose status is Accept, and all statuses back to where they start. */
  method Decide(ghost w: string, statuses: array<Status>, prev: array<Status>, curr: array<Status>) returns (tk: nat)
    requires prev.Length == curr.Length == statuses.Length == COUNT && prev != curr
    requires forall k: nat :: k < COUNT ==> (statuses[k] == Accept <==> Accepts(k, w))
    requires statuses == prev || statuses == curr
    modifies prev, curr
    ensures tk == Winner(w, COUNT)
    ensures forall k :: 0 <= k < COUNT ==> prev[k] == Hungry && curr[k] == Reject
  {
    hide Accepts;
    tk := COUNT;
    var k := 0;
    while k < COUNT
      invariant 0 <= k <= COUNT && tk == Winner(w, k)
      invariant forall j: nat :: k <= j < COUNT ==> (statuses[j] == Accept <==> Accepts(j, w))
      invariant forall j :: 0 <= j < k ==> prev[j] == Hungry && curr[j] == Reject
    {
      if statuses[k] == Accept {
        tk := k;
      }
      prev[k], curr[k] := Hungry, Reject;
      k := k + 1;
    }
  }

  /** lex: the tokens between the two markers, or failure. */
  method Lex(input: string) returns (ok: bool, tokens: seq<Token>)
    ensures ok <==> TokensFrom(input, 0).Some?
    ensures ok ==> tokens == [Token(FBEG, 0, 0)] + TokensFrom(input, 0).value + [Token(FEND, 0, 0)]
  {
    hide Scan, Live, Winner, TokensFrom, Prefixed, Accepts;
    var prev := new Status[COUNT](_ => Hungry);
    var curr := new Status[COUNT](_ => Reject);
    var states := new nat[COUNT](_ => 0);
    var b, e := 0, 0;
    tokens := [];
    ghost var whole := TokensFrom(input, 0);
    Fresh(prev, states);
    NothingBefore(whole);
    while e < |input|
      invariant 0 <= b <= e <= |input| && InStep(prev, states, input[b..e])
      invariant forall tk :: 0 <= tk < COUNT && prev[tk] == Reject ==> curr[tk] == Reject
      invariant b < e ==> forall tk :: 0 <= tk < COUNT ==> curr[tk] == prev[tk]
      invariant b == e ==> (e < |input| || |input| == 0) && forall tk :: 0 <= tk < COUNT ==> curr[tk] == Reject
      invariant Reach(input, b, b) == Reach(input, b, e)
      invariant whole == Prefixed(tokens, TokensFrom(input, b))
      decreases |input| - e, e - b
    {
      PreviousIs(prev, states, input[b..e]);
      var alive := StepAll(input, b, e, prev, curr, states);
      if alive {
        e := e + 1;
        Copy(curr, prev);
      } else {
        ghost var w := input[b..e];
        StillReset(input, b, e, states);
        var tk := Decide(w, prev, prev, curr);
        ReachStops(input, b, e);
        CutOne(input, b, tokens);
        if tk == COUNT {
          return false, tokens;
        }
        EmptyLoses(w);
        tokens := tokens + [Token(tk, b, e)];
        b := e;
        Fresh(prev, states);
      }
    }
    ghost var w := input[b..e];
    CurrentIs(prev, curr, states, w);
    var tk := Decide(w, curr, prev, curr);
    EmptyLoses(w);
    ReachStops(input, b, e);
    CutOne(input, b, tokens);
    if tk == COUNT {
      return false, tokens;
    }
    ok := true;
    tokens := [Token(FBEG, 0, 0)] + (tokens + [Token(tk, b, e)]) + [Token(FEND, 0, 0)];
  }

  /** Tokens already cut off, then the rest. */
  function Prefixed(ts: seq<Token>, rest: Option<seq<Token>>): Option<seq<Token>> {
    match rest
    case None => None
    case Some(us) => Some(ts + us)
  }

  lemma NothingBefore(rest: Option<seq<Token>>)
    ensures Prefixed([], rest) == rest
  {
    if rest.Some? {
      assert [] + rest.value == rest.value;
    }
  }

  lemma ReachStops(input: string, b: nat, e: nat)
    requires b <= e <= |input| && Reach(input, b, b) == Reach(input, b, e) && (e < |input| ==> !Live(input[b..e + 1]))
    ensures Reach(input, b, b) == e
  {
  }

  /** Cutting one more token off the rest. */
  lemma CutOne(input: string, b: nat, ts: seq<Token>)
    requires b <= |input|
    ensures var e := Reach(input, b, b);
      var tk := Winner(input[b..e], COUNT);
      && (tk == COUNT ==> Prefixed(ts, TokensFrom(input, b)) == None)
      && (tk != COUNT && e == |input| ==> Prefixed(ts, TokensFrom(input, b)) == Some(ts + [Token(tk, b, e)]))
      && (tk != COUNT && e < |input| ==> Prefixed(ts, TokensFrom(input, b)) == Prefixed(ts + [Token(tk, b, e)], TokensFrom(input, e)))
  {
    hide Live, Winner;
    var e := Reach(input, b, b);
    var tk := Winner(input[b..e], COUNT);
    EmptyLoses(input[b..e]);
    if tk != COUNT && e < |input| && TokensFrom(input, e).Some? {
      var us := TokensFrom(input, e).value;
      assert ts + ([Token(tk, b, e)] + us) == (ts + [Token(tk, b, e)]) + us;
    }
  }

  method Copy(from: array<Status>, to: array<Status>)
    requires from.Length == to.Length && from != to
    modifies to
    ensures forall k :: 0 <= k < to.Length ==> to[k] == from[k]
  {
    var k := 0;
    while k < to.Length
      invariant 0 <= k <= to.Length && forall j :: 0 <= j < k ==> to[j] == from[j]
    {
      to[k] := from[k];
      k := k + 1;
    }
  }

  lemma Fresh(prev: array<Status>, states: array<nat>)
    requires prev.Length == COUNT && states.Length == COUNT
    requires forall k :: 0 <= k < COUNT ==> prev[k] == Hungry && states[k] == 0
    ensures forall b: nat, input: string :: b <= |input| ==> InStep(prev, states, input[b..b])
  {
    forall b: nat, input: string | b <= |input| ensures InStep(prev, states, input[b..b]) {
      assert input[b..b] == [];
    }
  }

  /** At a boundary every automaton is back in its start state. */
  lemma StillReset(input: string, b: nat, e: nat, states: array<nat>)
    requires b <= e < |input| && states.Length == COUNT && !Live(input[b..e + 1])
    requires forall tk: nat :: tk < COUNT ==> states[tk] == Scan(tk, input[b..e + 1]).1
    ensures forall tk :: 0 <= tk < COUNT ==> states[tk] == 0
  {
    hide Scan;
    forall tk: nat | tk < COUNT ensures states[tk] == 0 {
      RejectedIsReset(tk, input[b..e + 1]);
    }
  }

  lemma EmptyLoses(w: string)
    ensures w == [] ==> Winner(w, COUNT) == COUNT
  {
    WinnerWins(w, COUNT);
  }

  lemma PreviousIs(prev: array<Status>, states: array<nat>, w: string)
    requires prev.Length == states.Length == COUNT && InStep(prev, states, w)
    ensures forall k: nat :: k < COUNT ==> (prev[k] == Accept <==> Accepts(k, w))
  {
  }

  lemma CurrentIs(prev: array<Status>, curr: array<Status>, states: array<nat>, w: string)
    requires prev.Length == curr.Length == states.Length == COUNT && InStep(prev, states, w)
    requires w != [] ==> forall tk :: 0 <= tk < COUNT ==> curr[tk] == prev[tk]
    requires w == [] ==> forall tk :: 0 <= tk < COUNT ==> curr[tk] == Reject
    ensures forall k: nat :: k < COUNT ==> (curr[k] == Accept <==> Accepts(k, w))
  {
  }
}
