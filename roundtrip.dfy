/** Reading back what the writer wrote. For a value whose top level is a non-empty Array
    or Object, with no empty container anywhere, whose leaves are Null, Boolean, a Decimal
    that is not negative or a String without a quote, and whose keys hold neither a quote
    nor white space, `read` on the text of `write` completes and rebuilds the value
    (json.hpp:170-235 with 359-419).

    The proof follows the reader through the text: `Fill` shows that from the first
    character of a value's text, with the value's slot on top of the stack and holding
    Null, the loop reaches the state where that slot holds the value and has been popped;
    `FillElems` and `FillEntries` do the same for the elements of an Array and the
    entries of an Object. */
module RoundTrip {
  import opened JsonValue
  import opened Paths
  import opened Stream
  import opened Numerals
  import opened KeyOrder
  import opened Writer
  import opened Reader

  /** A key the reader can read back: `>>` drops white space, and a quote ends the key. */
  predicate PlainKey(k: string)
  {
    forall i :: 0 <= i < |k| ==> k[i] != '"' && !IsSpace(k[i])
  }

  /** The values the round trip holds for. */
  predicate Admissible(v: Value)
    decreases v
  {
    match v
    case Null => true
    case Boolean(_) => true
    case Decimal(i) => i >= 0
    case Float(_) => false
    case String(s) => '"' !in s
    case Array(es) => |es| > 0 && forall i :: 0 <= i < |es| ==> Admissible(es[i])
    case Object(fs) => |fs| > 0 && forall k :: k in fs ==> PlainKey(k) && Admissible(fs[k])
  }

  /** The values written as a bare token that the token loop reads. */
  predicate IsToken(v: Value)
  {
    v.Null? || v.Boolean? || v.Decimal?
  }

  // ---------------------------------------------------------------- text layout

  /** `x` occurs in `text` at position `a`. */
  predicate Holds(text: string, a: nat, x: string)
  {
    a + |x| <= |text| && text[a..a + |x|] == x
  }

  lemma HoldsCat(text: string, a: nat, x: string, y: string)
    requires Holds(text, a, x + y)
    ensures Holds(text, a, x) && Holds(text, a + |x|, y)
  {
    assert text[a..a + |x|] == text[a..a + |x| + |y|][..|x|];
    assert text[a + |x|..a + |x| + |y|] == text[a..a + |x| + |y|][|x|..];
  }

  lemma HoldsChar(text: string, a: nat, x: string, j: nat)
    requires Holds(text, a, x) && j < |x|
    ensures text[a + j] == x[j]
  {
    assert text[a..a + |x|][j] == text[a + j];
  }

  /** The next non-blank character at or after `k` ends a token. */
  predicate Delimited(text: string, k: nat)
  {
    k <= |text| && SkipWs(text, k) < |text| && IsDelimiter(text[SkipWs(text, k)])
  }

  predicate AllSpace(ws: string)
  {
    forall i :: 0 <= i < |ws| ==> IsSpace(ws[i])
  }

  lemma {:induction false} SkipWsOver(text: string, k: nat, ws: string)
    requires Holds(text, k, ws) && AllSpace(ws)
    ensures SkipWs(text, k) == SkipWs(text, k + |ws|)
    decreases |ws|
  {
    if ws != [] {
      HoldsChar(text, k, ws, 0);
      assert ws == [ws[0]] + ws[1..];
      HoldsCat(text, k, [ws[0]], ws[1..]);
      SkipWsOver(text, k + 1, ws[1..]);
    }
  }

  lemma SkipWsAgain(text: string, k: nat)
    requires k <= |text|
    ensures SkipWs(text, SkipWs(text, k)) == SkipWs(text, k)
  {
  }

  lemma NewlineTabsBlank(lvl: nat)
    ensures AllSpace("\n" + Tabs(lvl))
    ensures AllSpace("\n" + Tabs(lvl) + "\t")
  {
  }

  /** The quote loops read a string up to its closing quote. */
  lemma {:induction false} QuoteOver(text: string, k: nat, s: string, c: char, skipWs: bool)
    requires Holds(text, k, s + "\"") && '"' !in s
    requires skipWs ==> forall i :: 0 <= i < |s| ==> !IsSpace(s[i])
    ensures UntilQuote(Input(text, k, false), c, skipWs) == Scanned(s, Input(text, k + |s| + 1, false), '"')
    decreases |s|
  {
    HoldsChar(text, k, s + "\"", 0);
    var g := Got(true, text[k], Input(text, k + 1, false));
    ReadAt(text, k, c, skipWs);
    UntilQuoteStep(Input(text, k, false), c, skipWs, g);
    if s != [] {
      FirstAndRest(s, "\"");
      HoldsCat(text, k, [s[0]], s[1..] + "\"");
      QuoteOver(text, k + 1, s[1..], s[0], skipWs);
    }
  }

  lemma FirstAndRest(s: string, t: string)
    requires s != []
    ensures s + t == [s[0]] + (s[1..] + t) && [s[0]] + s[1..] == s
  {
  }

  /** `>>` or `get` in front of a character that is not blank reads that character. */
  lemma ReadAt(text: string, k: nat, c: char, skipWs: bool)
    requires k < |text| && (skipWs ==> !IsSpace(text[k]))
    ensures (if skipWs then ExtractChar(Input(text, k, false), c) else GetChar(Input(text, k, false), c)) ==
      Got(true, text[k], Input(text, k + 1, false))
  {
  }

  lemma {:induction false} TokenSkipsWs(text: string, k: nat)
    requires k <= |text|
    ensures TokenFrom(text, k) == TokenFrom(text, SkipWs(text, k))
    decreases |text| - k
  {
    if k < |text| && IsSpace(text[k]) {
      TokenSkipsWs(text, k + 1);
    }
  }

  /** Characters the token loop collects. */
  predicate Word(x: string)
  {
    forall i :: 0 <= i < |x| ==> !IsSpace(x[i]) && !IsDelimiter(x[i])
  }

  /** The token loop reads a word up to the delimiter after it. */
  lemma {:induction false} TokenOver(text: string, k: nat, word: string)
    requires Holds(text, k, word) && Delimited(text, k + |word|) && Word(word)
    ensures TokenFrom(text, k) == Some(Token(word, SkipWs(text, k + |word|)))
    decreases |word|
  {
    if word == [] {
      TokenSkipsWs(text, k);
    } else {
      HoldsChar(text, k, word, 0);
      assert word == [word[0]] + word[1..];
      HoldsCat(text, k, [word[0]], word[1..]);
      TokenOver(text, k + 1, word[1..]);
    }
  }

  /** The characters of a token the writer produces. */
  lemma TokenText(w: Value, lvl: nat, ft: bv32 -> string)
    requires IsToken(w) && Admissible(w)
    ensures var r := Render(w, lvl, ft);
      |r| > 0 && Word(r[1..]) && !IsSpace(r[0]) && r[0] != '"' && r[0] != '{' && r[0] != '['
  {
    var r := Render(w, lvl, ft);
    RenderStart(w, lvl, ft);
    if w.Decimal? {
      assert AllDigits(r);
    }
  }

  // ---------------------------------------------------------------- reader steps

  lemma RunNext(st: State, stod: string -> Option<bv32>, next: State)
    requires Wf(st) && st.stack != [] && Step(st, stod) == Next(next)
    ensures Leads(st, next, stod)
  {
    StepProgress(st, stod);
    assert Run(st, stod) == AfterTurn(st, stod);
  }

  lemma LeadsChain(st: State, mid: State, later: State, stod: string -> Option<bv32>)
    requires Leads(st, mid, stod) && Leads(mid, later, stod)
    ensures Leads(st, later, stod)
  {
  }

  /** The state the reader is in once it has filled a slot from the text of `w` ending
      at `end`, and popped it: after a token, in front of the delimiter that ended it;
      otherwise right after the closing quote, bracket or brace. */
  function Landed(w: Value, text: string, end: nat, stack: seq<Path>, tree: Value): State
    requires end <= |text|
    requires IsToken(w) ==> Delimited(text, end)
  {
    State(Input(text, LandedAt(w, text, end), false), LandedOn(w, text, end), stack, tree)
  }

  function LandedAt(w: Value, text: string, end: nat): nat
    requires end <= |text|
  {
    if IsToken(w) then SkipWs(text, end) else end
  }

  /** The value `eater` holds once the value's text has been read. */
  function LandedOn(w: Value, text: string, end: nat): char
    requires end <= |text|
    requires IsToken(w) ==> Delimited(text, end)
  {
    if IsToken(w) then text[SkipWs(text, end)]
    else if w.String? then '"' else if w.Array? then ']' else '}'
  }

  /** Wherever the reader landed, the next `>>` reads the first non-blank character after
      the value's text. */
  lemma ExtractAfter(w: Value, text: string, end: nat, land: State)
    requires end <= |text| && SkipWs(text, end) < |text|
    requires IsToken(w) ==> Delimited(text, end)
    requires land.input == Input(text, LandedAt(w, text, end), false) && land.eater == LandedOn(w, text, end)
    ensures var d := SkipWs(text, end);
      Placed(land.input) && ExtractChar(land.input, land.eater) == Got(true, text[d], Input(text, d + 1, false))
  {
    SkipWsAgain(text, end);
  }

  /** `>>` on a stream whose next character is not blank reads it. */
  lemma ExtractHere(text: string, a: nat, e: char)
    requires a < |text| && !IsSpace(text[a])
    ensures ExtractChar(Input(text, a, false), e) == Got(true, text[a], Input(text, a + 1, false))
  {
  }

  /** `>>` on a stream that is not at its end reads the first non-blank character. */
  lemma ExtractSkipping(s: Input, e: char)
    requires Placed(s) && !s.eof && SkipWs(s.text, s.pos) < |s.text|
    ensures var d := SkipWs(s.text, s.pos);
      ExtractChar(s, e) == Got(true, s.text[d], Input(s.text, d + 1, false))
  {
  }

  // A turn dispatches on the slot on top and on the character `>>` reads: one lemma per
  // branch.

  lemma DispatchObject(st: State, stod: string -> Option<bv32>, c: char, s: Input, S: seq<Path>, q: Path)
    requires Wf(st) && st.stack == S + [q] && Resolves(st.tree, q)
    requires ExtractChar(st.input, st.eater) == Got(true, c, s)
    requires At(st.tree, q).Object? || c == '{'
    ensures Placed(s) && Step(st, stod) == ObjectStep(S, q, st.tree, s, c)
  {
    assert (S + [q])[..|S + [q]| - 1] == S;
  }

  lemma DispatchArray(st: State, stod: string -> Option<bv32>, c: char, s: Input, S: seq<Path>, q: Path)
    requires Wf(st) && st.stack == S + [q] && Resolves(st.tree, q)
    requires ExtractChar(st.input, st.eater) == Got(true, c, s)
    requires !At(st.tree, q).Object? && c != '{' && (At(st.tree, q).Array? || c == '[')
    ensures Placed(s) && Step(st, stod) == ArrayStep(S, q, st.tree, s, c)
  {
    assert (S + [q])[..|S + [q]| - 1] == S;
  }

  lemma DispatchQuote(st: State, stod: string -> Option<bv32>, s: Input, S: seq<Path>, q: Path, next: State)
    requires Wf(st) && st.stack == S + [q] && Resolves(st.tree, q)
    requires ExtractChar(st.input, st.eater) == Got(true, '"', s)
    requires !At(st.tree, q).Object? && !At(st.tree, q).Array?
    requires Placed(s)
    requires next == State(UntilQuote(s, '"', false).rest, UntilQuote(s, '"', false).eater, S,
                           Put(st.tree, q, String(UntilQuote(s, '"', false).text)))
    ensures Step(st, stod) == Next(next)
  {
    assert (S + [q])[..|S + [q]| - 1] == S;
  }

  lemma DispatchScalar(st: State, stod: string -> Option<bv32>, c: char, s: Input, S: seq<Path>, q: Path)
    requires Wf(st) && st.stack == S + [q] && Resolves(st.tree, q)
    requires ExtractChar(st.input, st.eater) == Got(true, c, s)
    requires !At(st.tree, q).Object? && !At(st.tree, q).Array? && c != '{' && c != '[' && c != '"'
    ensures Placed(s) && Step(st, stod) == ScalarStep(S, q, st.tree, s, c, stod)
  {
    assert (S + [q])[..|S + [q]| - 1] == S;
  }

  // ---------------------------------------------------------------- scalars

  /** The scalar branch on the token a scalar of the writer is written as. */
  lemma TokenTurn(w: Value, r: string, lvl: nat, ft: bv32 -> string, stod: string -> Option<bv32>,
                  S: seq<Path>, q: Path, tree: Value, s: Input, d: nat, next: State)
    requires IsToken(w) && Admissible(w) && Resolves(tree, q) && At(tree, q) == Null && Placed(s)
    requires r == Render(w, lvl, ft) && |r| > 0 && ScanToken(s) == Some(Token(r[1..], d))
    requires next == State(Input(s.text, d, false), s.text[d], S, Put(tree, q, w))
    ensures ScalarStep(S, q, tree, s, r[0], stod) == Next(next)
  {
    assert [r[0]] + r[1..] == r;
    match w
    case Null =>
      WordsClassified();
      PutAt(tree, q);
    case Boolean(b) =>
      WordsClassified();
      assert r == "true" <==> b;
    case Decimal(i) =>
      NumberTextIsDecimal(i);
      StoiOfText(i);
  }

  /** `>>` reads the first character of a token, and the token loop the rest of it. */
  lemma TokenAt(text: string, a: nat, r: string, e: char)
    requires Holds(text, a, r) && |r| > 0 && !IsSpace(r[0]) && Word(r[1..]) && Delimited(text, a + |r|)
    ensures ExtractChar(Input(text, a, false), e) == Got(true, r[0], Input(text, a + 1, false))
    ensures ScanToken(Input(text, a + 1, false)) == Some(Token(r[1..], SkipWs(text, a + |r|)))
  {
    HoldsChar(text, a, r, 0);
    assert r == [r[0]] + r[1..];
    HoldsCat(text, a, [r[0]], r[1..]);
    assert a + 1 + |r[1..]| == a + |r|;
    TokenOver(text, a + 1, r[1..]);
    ExtractHere(text, a, e);
  }

  /** The turn that reads a scalar token into a slot that holds Null. */
  lemma TokenStep(w: Value, r: string, lvl: nat, ft: bv32 -> string, stod: string -> Option<bv32>,
                  text: string, a: nat, e: char, S: seq<Path>, q: Path, tree: Value, full: Value, st: State, land: State)
    requires IsToken(w) && Admissible(w) && r == Render(w, lvl, ft)
    requires Holds(text, a, r) && Delimited(text, a + |r|)
    requires st == State(Input(text, a, false), e, S + [q], tree)
    requires Wf(st) && Resolves(tree, q) && At(tree, q) == Null && full == Put(tree, q, w)
    requires land == Landed(w, text, a + |r|, S, full)
    ensures Step(st, stod) == Next(land)
  {
    TokenText(w, lvl, ft);
    TokenAt(text, a, r, e);
    var d := SkipWs(text, a + |r|);
    var s := Input(text, a + 1, false);
    DispatchScalar(st, stod, r[0], s, S, q);
    assert land == State(Input(text, d, false), text[d], S, full);
    TokenTurn(w, r, lvl, ft, stod, S, q, tree, s, d, land);
  }

  /** A scalar token into a slot that holds Null. */
  lemma FillToken(w: Value, r: string, lvl: nat, ft: bv32 -> string, stod: string -> Option<bv32>,
                  text: string, a: nat, e: char, S: seq<Path>, q: Path, tree: Value, full: Value, st: State, land: State)
    requires IsToken(w) && Admissible(w) && r == Render(w, lvl, ft)
    requires Holds(text, a, r) && Delimited(text, a + |r|)
    requires st == State(Input(text, a, false), e, S + [q], tree)
    requires Wf(st) && Resolves(tree, q) && At(tree, q) == Null && full == Put(tree, q, w)
    requires land == Landed(w, text, a + |r|, S, full)
    ensures Leads(st, land, stod)
  {
    TokenStep(w, r, lvl, ft, stod, text, a, e, S, q, tree, full, st, land);
    RunNext(st, stod, land);
  }

  /** The turn that reads a quoted String into a slot that holds Null. */
  lemma StringStep(w: Value, r: string, lvl: nat, ft: bv32 -> string, stod: string -> Option<bv32>,
                   text: string, a: nat, e: char, S: seq<Path>, q: Path, tree: Value, full: Value, st: State, land: State)
    requires w.String? && Admissible(w) && r == Render(w, lvl, ft) && Holds(text, a, r)
    requires st == State(Input(text, a, false), e, S + [q], tree)
    requires Wf(st) && Resolves(tree, q) && At(tree, q) == Null && full == Put(tree, q, w)
    requires land == Landed(w, text, a + |r|, S, full)
    ensures Step(st, stod) == Next(land)
  {
    assert r == "\"" + (w.s + "\"");
    HoldsChar(text, a, r, 0);
    HoldsCat(text, a, "\"", w.s + "\"");
    QuoteOver(text, a + 1, w.s, '"', false);
    ExtractHere(text, a, e);
    DispatchQuote(st, stod, Input(text, a + 1, false), S, q, land);
  }

  /** A quoted String into a slot that holds Null. */
  lemma FillString(w: Value, r: string, lvl: nat, ft: bv32 -> string, stod: string -> Option<bv32>,
                   text: string, a: nat, e: char, S: seq<Path>, q: Path, tree: Value, full: Value, st: State, land: State)
    requires w.String? && Admissible(w) && r == Render(w, lvl, ft) && Holds(text, a, r)
    requires st == State(Input(text, a, false), e, S + [q], tree)
    requires Wf(st) && Resolves(tree, q) && At(tree, q) == Null && full == Put(tree, q, w)
    requires land == Landed(w, text, a + |r|, S, full)
    ensures Leads(st, land, stod)
  {
    StringStep(w, r, lvl, ft, stod, text, a, e, S, q, tree, full, st, land);
    RunNext(st, stod, land);
  }

  /** The text `r` of a value, from its first character, fills the Null slot on top of the
      stack with the value and pops it. */
  lemma {:induction false} Fill(w: Value, r: string, lvl: nat, ft: bv32 -> string, stod: string -> Option<bv32>,
                                text: string, a: nat, e: char, S: seq<Path>, q: Path, tree: Value, full: Value,
                                st: State, land: State)
    requires Admissible(w) && r == Render(w, lvl, ft) && Holds(text, a, r)
    requires IsToken(w) ==> Delimited(text, a + |r|)
    requires st == State(Input(text, a, false), e, S + [q], tree)
    requires Wf(st) && Resolves(tree, q) && At(tree, q) == Null && full == Put(tree, q, w)
    requires land == Landed(w, text, a + |r|, S, full)
    ensures Leads(st, land, stod)
    decreases w, 3, 0
  {
    if IsToken(w) {
      FillToken(w, r, lvl, ft, stod, text, a, e, S, q, tree, full, st, land);
    } else if w.String? {
      FillString(w, r, lvl, ft, stod, text, a, e, S, q, tree, full, st, land);
    } else if w.Array? {
      FillArray(w, r, lvl, ft, stod, text, a, e, S, q, tree, full, st, land);
    } else {
      FillObject(w, r, lvl, ft, stod, text, a, e, S, q, tree, full, st, land);
    }
  }

  // ---------------------------------------------------------------- arrays

  lemma ElementsTail(w: Value, i: nat, lvl: nat, ft: bv32 -> string)
    requires w.Array? && i < |w.elems|
    ensures ElementsFrom(w, i, lvl, ft) + "]" ==
      Render(w.elems[i], lvl, ft) +
      (if i + 1 < |w.elems| then "," + (ElementsFrom(w, i + 1, lvl, ft) + "]") else "]")
    ensures |ElementsFrom(w, i, lvl, ft)| ==
      |Render(w.elems[i], lvl, ft)| + (if i + 1 < |w.elems| then 1 + |ElementsFrom(w, i + 1, lvl, ft)| else 0)
  {
    ElementsSplit(w, i, lvl, ft);
  }

  /** The turn that reads `[` into a slot that holds Null: the slot becomes an Array with
      one Null element, and the element is pushed. */
  lemma ArrayOpenStep(stod: string -> Option<bv32>, text: string, a: nat, e: char, S: seq<Path>, q: Path, tree: Value,
                      st: State, next: State)
    requires a < |text| && text[a] == '['
    requires st == State(Input(text, a, false), e, S + [q], tree)
    requires Wf(st) && Resolves(tree, q) && At(tree, q) == Null
    requires next == State(Input(text, a + 1, false), '[', S + [q, q + [Index(0)]], Put(tree, q, Array([Null])))
    ensures Step(st, stod) == Next(next)
  {
    ExtractHere(text, a, e);
    DispatchArray(st, stod, '[', Input(text, a + 1, false), S, q);
    assert Subscript(Null, 0).holder == Array([Null]);
  }

  /** The text of an Array: its opening bracket, its elements and its closing bracket. */
  lemma ArrayLayout(w: Value, lvl: nat, ft: bv32 -> string, text: string, a: nat)
    requires w.Array? && Holds(text, a, Render(w, lvl, ft))
    ensures text[a] == '[' && Holds(text, a + 1, ElementsFrom(w, 0, lvl, ft) + "]")
    ensures |Render(w, lvl, ft)| == |ElementsFrom(w, 0, lvl, ft)| + 2
  {
    var body := ElementsFrom(w, 0, lvl, ft) + "]";
    assert Render(w, lvl, ft) == "[" + body;
    HoldsCat(text, a, "[", body);
    HoldsChar(text, a, "[", 0);
  }

  /** The turn that reads the opening bracket of an Array's text. */
  lemma OpenArray(w: Value, lvl: nat, ft: bv32 -> string, stod: string -> Option<bv32>,
                  text: string, a: nat, e: char, S: seq<Path>, q: Path, tree: Value, st: State, next: State)
    requires w.Array? && Holds(text, a, Render(w, lvl, ft))
    requires st == State(Input(text, a, false), e, S + [q], tree)
    requires Wf(st) && Resolves(tree, q) && At(tree, q) == Null
    requires next == State(Input(text, a + 1, false), '[', S + [q, q + [Index(0)]], Put(tree, q, Array(w.elems[..0] + [Null])))
    ensures Leads(st, next, stod)
    ensures Holds(text, a + 1, ElementsFrom(w, 0, lvl, ft) + "]")
    ensures a + |Render(w, lvl, ft)| == a + 1 + |ElementsFrom(w, 0, lvl, ft)| + 1
  {
    ArrayLayout(w, lvl, ft, text, a);
    assert w.elems[..0] + [Null] == [Null];
    ArrayOpenStep(stod, text, a, e, S, q, tree, st, next);
    RunNext(st, stod, next);
  }

  lemma {:induction false} FillArray(w: Value, r: string, lvl: nat, ft: bv32 -> string, stod: string -> Option<bv32>,
                                     text: string, a: nat, e: char, S: seq<Path>, q: Path, tree: Value, full: Value,
                                     st: State, land: State)
    requires w.Array? && Admissible(w) && r == Render(w, lvl, ft) && Holds(text, a, r)
    requires st == State(Input(text, a, false), e, S + [q], tree)
    requires Wf(st) && Resolves(tree, q) && At(tree, q) == Null && full == Put(tree, q, w)
    requires land == Landed(w, text, a + |r|, S, full)
    ensures Leads(st, land, stod)
    decreases w, 2, 0
  {
    var next := State(Input(text, a + 1, false), '[', S + [q, q + [Index(0)]], Put(tree, q, Array(w.elems[..0] + [Null])));
    OpenArray(w, lvl, ft, stod, text, a, e, S, q, tree, st, next);
    FillElems(w, 0, lvl, ft, stod, text, a + 1, '[', S, q, tree, next, full, a + |r|, land);
  }

  /** Element `i` of a partly read Array: it holds Null, and putting the element there
      gives the Array of the first `i + 1` elements. */
  lemma ElementSlot(tree0: Value, q: Path, es: seq<Value>, i: nat, tree: Value, tree1: Value)
    requires Resolves(tree0, q) && i < |es|
    requires tree == Put(tree0, q, Array(es[..i] + [Null])) && tree1 == Put(tree0, q, Array(es[..i + 1]))
    ensures Resolves(tree, q + [Index(i)]) && At(tree, q + [Index(i)]) == Null
    ensures Put(tree, q + [Index(i)], es[i]) == tree1
  {
    var partial := Array(es[..i] + [Null]);
    ResolvesBelow(tree0, q, partial, Index(i));
    assert [Index(i)][1..] == [];
    PutBelow(tree, q, Index(i), es[i]);
    assert (es[..i] + [Null])[i := es[i]] == es[..i + 1];
    PutPut(tree0, q, partial, Array(es[..i + 1]));
  }

  /** The turn after an element followed by `,`: a Null element is appended and pushed. */
  lemma ArrayMoreStep(x: Value, text: string, c: nat, S: seq<Path>, q: Path, tree0: Value, elems: seq<Value>, n: nat,
                      stod: string -> Option<bv32>, mid: State, next: State)
    requires c < |text| && text[c] == ',' && SkipWs(text, c) == c && Resolves(tree0, q) && n == |elems|
    requires mid == Landed(x, text, c, S + [q], Put(tree0, q, Array(elems))) && Wf(mid)
    requires next == State(Input(text, c + 1, false), ',', S + [q, q + [Index(n)]], Put(tree0, q, Array(elems + [Null])))
    ensures Step(mid, stod) == Next(next)
  {
    ExtractAfter(x, text, c, mid);
    DispatchArray(mid, stod, ',', Input(text, c + 1, false), S, q);
    assert Subscript(Array(elems), |elems|).holder == Array(elems + [Null]);
    PutPut(tree0, q, Array(elems), Array(elems + [Null]));
  }

  lemma MoreElements(x: Value, text: string, c: nat, S: seq<Path>, q: Path, tree0: Value, elems: seq<Value>, n: nat,
                     stod: string -> Option<bv32>, mid: State, next: State)
    requires c < |text| && text[c] == ',' && SkipWs(text, c) == c && Resolves(tree0, q) && n == |elems|
    requires mid == Landed(x, text, c, S + [q], Put(tree0, q, Array(elems))) && Wf(mid)
    requires next == State(Input(text, c + 1, false), ',', S + [q, q + [Index(n)]], Put(tree0, q, Array(elems + [Null])))
    ensures Leads(mid, next, stod)
  {
    ArrayMoreStep(x, text, c, S, q, tree0, elems, n, stod, mid, next);
    RunNext(mid, stod, next);
  }

  /** The turn after the last element: `]` pops the Array. */
  lemma ArrayCloseStep(x: Value, text: string, c: nat, S: seq<Path>, q: Path, tree: Value,
                       stod: string -> Option<bv32>, mid: State, next: State)
    requires c < |text| && text[c] == ']' && SkipWs(text, c) == c
    requires Resolves(tree, q) && At(tree, q).Array?
    requires mid == Landed(x, text, c, S + [q], tree) && Wf(mid)
    requires next == State(Input(text, c + 1, false), ']', S, tree)
    ensures Step(mid, stod) == Next(next)
  {
    ExtractAfter(x, text, c, mid);
    DispatchArray(mid, stod, ']', Input(text, c + 1, false), S, q);
  }

  /** Where element `i` of an Array's text ends, and what follows it. */
  lemma ElementLayout(w: Value, i: nat, lvl: nat, ft: bv32 -> string, text: string, b: nat, r: string, c: nat)
    requires w.Array? && i < |w.elems| && Holds(text, b, ElementsFrom(w, i, lvl, ft) + "]")
    requires r == Render(w.elems[i], lvl, ft) && c == b + |r|
    ensures Holds(text, b, r) && c < |text| && SkipWs(text, c) == c && Delimited(text, c)
    ensures i + 1 < |w.elems| ==>
      text[c] == ',' && Holds(text, c + 1, ElementsFrom(w, i + 1, lvl, ft) + "]") &&
      b + |ElementsFrom(w, i, lvl, ft)| == c + 1 + |ElementsFrom(w, i + 1, lvl, ft)|
    ensures i + 1 == |w.elems| ==> text[c] == ']' && b + |ElementsFrom(w, i, lvl, ft)| == c
  {
    var more := i + 1 < |w.elems|;
    var tail := if more then "," + (ElementsFrom(w, i + 1, lvl, ft) + "]") else "]";
    ElementSplit(w, i, lvl, ft, text, b, r, c, tail);
    if more {
      CommaThen(text, c, ElementsFrom(w, i + 1, lvl, ft) + "]");
    } else {
      BracketAt(text, c);
    }
  }

  /** Element `i` of an Array's text, and what follows it. */
  lemma ElementSplit(w: Value, i: nat, lvl: nat, ft: bv32 -> string, text: string, b: nat, r: string, c: nat,
                     tail: string)
    requires w.Array? && i < |w.elems| && Holds(text, b, ElementsFrom(w, i, lvl, ft) + "]")
    requires r == Render(w.elems[i], lvl, ft) && c == b + |r|
    requires tail == if i + 1 < |w.elems| then "," + (ElementsFrom(w, i + 1, lvl, ft) + "]") else "]"
    ensures Holds(text, b, r) && Holds(text, c, tail) && b + |ElementsFrom(w, i, lvl, ft)| + 1 == c + |tail|
  {
    ElementsTail(w, i, lvl, ft);
    HoldsCat(text, b, r, tail);
  }

  /** A closing bracket right where a value's text ends delimits it. */
  lemma BracketAt(text: string, c: nat)
    requires Holds(text, c, "]")
    ensures c < |text| && text[c] == ']' && SkipWs(text, c) == c && Delimited(text, c)
  {
    HoldsChar(text, c, "]", 0);
  }

  /** Element `i` of an admissible Array is admissible. */
  lemma ElementAdmissible(w: Value, i: nat)
    requires w.Array? && Admissible(w) && i < |w.elems|
    ensures Admissible(w.elems[i])
  {
  }

  /** Element `i` is read into its Null slot, which is then popped. */
  lemma {:induction false} FillElement(w: Value, i: nat, lvl: nat, ft: bv32 -> string, stod: string -> Option<bv32>,
                                       text: string, b: nat, e: char, c: nat, x: Value, r: string, S: seq<Path>, q: Path,
                                       tree: Value, tree1: Value, st: State, mid: State)
    requires w.Array? && i < |w.elems| && x == w.elems[i] && Admissible(x)
    requires r == Render(x, lvl, ft) && Holds(text, b, r)
    requires c == b + |r| && c <= |text| && Delimited(text, c)
    requires st == State(Input(text, b, false), e, (S + [q]) + [q + [Index(i)]], tree)
    requires Wf(st) && Resolves(tree, q + [Index(i)]) && At(tree, q + [Index(i)]) == Null
    requires tree1 == Put(tree, q + [Index(i)], x)
    requires mid == Landed(x, text, c, S + [q], tree1)
    ensures Leads(st, mid, stod)
    decreases w, 1, |w.elems| - i, 0
  {
    Fill(x, r, lvl, ft, stod, text, b, e, S + [q], q + [Index(i)], tree, tree1, st, mid);
  }

  /** From the first character of element `i`, with that element's Null slot on top of its
      Array's slot: the element is read, and its slot popped; the Array's slot on top then
      holds the first `i + 1` elements. */
  lemma {:induction false} ElementValue(w: Value, i: nat, lvl: nat, ft: bv32 -> string, stod: string -> Option<bv32>,
                                        text: string, b: nat, e: char, c: nat, r: string, S: seq<Path>, q: Path,
                                        tree0: Value, st: State, mid: State)
    requires w.Array? && Admissible(w) && i < |w.elems| && Resolves(tree0, q)
    requires r == Render(w.elems[i], lvl, ft) && Holds(text, b, r)
    requires c == b + |r| && c < |text| && Delimited(text, c)
    requires st == State(Input(text, b, false), e, S + [q, q + [Index(i)]], Put(tree0, q, Array(w.elems[..i] + [Null])))
    requires Wf(st)
    requires mid == Landed(w.elems[i], text, c, S + [q], Put(tree0, q, Array(w.elems[..i + 1])))
    ensures Leads(st, mid, stod)
    decreases w, 1, |w.elems| - i, 1
  {
    var tree := Put(tree0, q, Array(w.elems[..i] + [Null]));
    var tree1 := Put(tree0, q, Array(w.elems[..i + 1]));
    ElementSlot(tree0, q, w.elems, i, tree, tree1);
    ElementAdmissible(w, i);
    PushTwo(S, q, q + [Index(i)]);
    FillElement(w, i, lvl, ft, stod, text, b, e, c, w.elems[i], r, S, q, tree, tree1, st, mid);
  }

  lemma CloseElements(x: Value, text: string, c: nat, S: seq<Path>, q: Path, tree: Value,
                      stod: string -> Option<bv32>, mid: State, next: State)
    requires c < |text| && text[c] == ']' && SkipWs(text, c) == c
    requires Resolves(tree, q) && At(tree, q).Array?
    requires mid == Landed(x, text, c, S + [q], tree) && Wf(mid)
    requires next == State(Input(text, c + 1, false), ']', S, tree)
    ensures Leads(mid, next, stod)
  {
    ArrayCloseStep(x, text, c, S, q, tree, stod, mid, next);
    RunNext(mid, stod, next);
  }

  /** From the first character of element `i`, with that element's Null slot on top of its
      Array's slot: the remaining elements are read, and the closing bracket pops the
      Array's slot. */
  lemma {:induction false} FillElems(w: Value, i: nat, lvl: nat, ft: bv32 -> string, stod: string -> Option<bv32>,
                                     text: string, b: nat, e: char, S: seq<Path>, q: Path, tree0: Value,
                                     st: State, full: Value, end: nat, land: State)
    requires w.Array? && Admissible(w) && i < |w.elems|
    requires Holds(text, b, ElementsFrom(w, i, lvl, ft) + "]")
    requires Resolves(tree0, q)
    requires st == State(Input(text, b, false), e, S + [q, q + [Index(i)]], Put(tree0, q, Array(w.elems[..i] + [Null])))
    requires Wf(st)
    requires end == b + |ElementsFrom(w, i, lvl, ft)| + 1 && end <= |text|
    requires full == Put(tree0, q, w) && land == Landed(w, text, end, S, full)
    ensures Leads(st, land, stod)
    decreases w, 1, |w.elems| - i, 2
  {
    var r := Render(w.elems[i], lvl, ft);
    var c := b + |r|;
    ElementLayout(w, i, lvl, ft, text, b, r, c);
    var mid := Landed(w.elems[i], text, c, S + [q], Put(tree0, q, Array(w.elems[..i + 1])));
    ElementValue(w, i, lvl, ft, stod, text, b, e, c, r, S, q, tree0, st, mid);
    ElementsAfter(w, i, lvl, ft, stod, text, c, S, q, tree0, mid, full, end, land);
  }

  /** From the state after element `i`: the separator and the remaining elements, or the
      closing bracket. */
  lemma {:induction false} ElementsAfter(w: Value, i: nat, lvl: nat, ft: bv32 -> string, stod: string -> Option<bv32>,
                                         text: string, c: nat, S: seq<Path>, q: Path, tree0: Value,
                                         mid: State, full: Value, end: nat, land: State)
    requires w.Array? && Admissible(w) && i < |w.elems|
    requires c < |text| && SkipWs(text, c) == c && Delimited(text, c) && Resolves(tree0, q)
    requires i + 1 < |w.elems| ==>
      text[c] == ',' && Holds(text, c + 1, ElementsFrom(w, i + 1, lvl, ft) + "]") &&
      end == c + 1 + |ElementsFrom(w, i + 1, lvl, ft)| + 1
    requires i + 1 == |w.elems| ==> text[c] == ']' && end == c + 1
    requires mid == Landed(w.elems[i], text, c, S + [q], Put(tree0, q, Array(w.elems[..i + 1]))) && Wf(mid)
    requires end <= |text| && full == Put(tree0, q, w) && land == Landed(w, text, end, S, full)
    ensures Leads(mid, land, stod)
    decreases w, 1, |w.elems| - i, 1
  {
    if i + 1 < |w.elems| {
      NextElements(w, i, lvl, ft, stod, text, c, S, q, tree0, mid, full, end, land);
    } else {
      assert w.elems[..i + 1] == w.elems;
      CloseElements(w.elems[i], text, c, S, q, full, stod, mid, land);
    }
  }

  /** From the separator after element `i`: the elements after it and the closing bracket. */
  lemma {:induction false} NextElements(w: Value, i: nat, lvl: nat, ft: bv32 -> string, stod: string -> Option<bv32>,
                                        text: string, c: nat, S: seq<Path>, q: Path, tree0: Value,
                                        mid: State, full: Value, end: nat, land: State)
    requires w.Array? && Admissible(w) && i + 1 < |w.elems|
    requires c < |text| && SkipWs(text, c) == c && Resolves(tree0, q) && text[c] == ','
    requires Holds(text, c + 1, ElementsFrom(w, i + 1, lvl, ft) + "]")
    requires end == c + 1 + |ElementsFrom(w, i + 1, lvl, ft)| + 1
    requires mid == Landed(w.elems[i], text, c, S + [q], Put(tree0, q, Array(w.elems[..i + 1]))) && Wf(mid)
    requires end <= |text| && full == Put(tree0, q, w) && land == Landed(w, text, end, S, full)
    ensures Leads(mid, land, stod)
    decreases w, 1, |w.elems| - i, 0
  {
    var next := State(Input(text, c + 1, false), ',', S + [q, q + [Index(i + 1)]], Put(tree0, q, Array(w.elems[..i + 1] + [Null])));
    MoreElements(w.elems[i], text, c, S, q, tree0, w.elems[..i + 1], i + 1, stod, mid, next);
    FillElems(w, i + 1, lvl, ft, stod, text, c + 1, ',', S, q, tree0, next, full, end, land);
  }

  // ---------------------------------------------------------------- objects

  /** What follows the opening brace of an Object, or the comma after its entry `i - 1`. */
  function Body(w: Value, i: nat, lvl: nat, ft: bv32 -> string): string
    requires w.Object?
  {
    "\n" + Tabs(lvl) + EntriesFrom(w, KeysOf(w), i, lvl, ft) + "\n" + Tabs(lvl) + "}"
  }

  /** The blank run, quote, key, quote and colon in front of an entry's value. */
  function EntryOpen(k: string, lvl: nat): string
  {
    "\n" + Tabs(lvl) + EntryHead(k)
  }

  lemma Regroup(n: string, t: string, h: string, r: string, tail: string)
    ensures n + t + (h + r + tail) + n + t + "}" == (n + t + h) + r + (tail + (n + t + "}"))
  {
  }

  lemma RegroupMore(t: string, rest: string)
    ensures ",\n" + t + rest + ("\n" + t + "}") == "," + ("\n" + t + rest + "\n" + t + "}")
  {
  }

  lemma BodySplit(w: Value, i: nat, lvl: nat, ft: bv32 -> string)
    requires w.Object? && i < |KeysOf(w)|
    ensures var ks := KeysOf(w);
      Body(w, i, lvl, ft) ==
        EntryOpen(ks[i], lvl) + Render(w.fields[ks[i]], lvl + 1, ft) +
        (if i + 1 < |ks| then "," + Body(w, i + 1, lvl, ft) else "\n" + Tabs(lvl) + "}")
  {
    var ks := KeysOf(w);
    var t := Tabs(lvl);
    var r := Render(w.fields[ks[i]], lvl + 1, ft);
    var tail := if i + 1 < |ks| then ",\n" + t + EntriesFrom(w, ks, i + 1, lvl, ft) else "";
    EntriesSplit(w, ks, i, lvl, ft);
    assert EntriesFrom(w, ks, i, lvl, ft) == EntryHead(ks[i]) + r + tail;
    Regroup("\n", t, EntryHead(ks[i]), r, tail);
    if i + 1 < |ks| {
      RegroupMore(t, EntriesFrom(w, ks, i + 1, lvl, ft));
    } else {
      assert tail + ("\n" + t + "}") == "\n" + t + "}";
    }
  }

  lemma HeadRegroup(n: string, k: string)
    ensures n + ("\t\"" + k + "\":") == (n + "\t") + ("\"" + (k + "\"") + ":")
  {
    assert "\t\"" == "\t" + "\"";
  }

  lemma EntryOpenLayout(text: string, c: nat, k: string, lvl: nat)
    requires Holds(text, c, EntryOpen(k, lvl))
    ensures var ws := "\n" + Tabs(lvl) + "\t";
      Holds(text, c, ws) && AllSpace(ws) &&
      text[c + |ws|] == '"' && Holds(text, c + |ws| + 1, k + "\"") && text[c + |ws| + |k| + 2] == ':' &&
      |EntryOpen(k, lvl)| == |ws| + |k| + 3
  {
    var ws := "\n" + Tabs(lvl) + "\t";
    var tail := "\"" + (k + "\"") + ":";
    NewlineTabsBlank(lvl);
    HeadRegroup("\n" + Tabs(lvl), k);
    HoldsCat(text, c, ws, tail);
    KeyLayout(text, c + |ws|, k);
  }

  lemma KeyLayout(text: string, b: nat, k: string)
    requires Holds(text, b, "\"" + (k + "\"") + ":")
    ensures text[b] == '"' && Holds(text, b + 1, k + "\"") && text[b + |k| + 2] == ':'
  {
    HoldsCat(text, b, "\"" + (k + "\""), ":");
    HoldsCat(text, b, "\"", k + "\"");
    HoldsChar(text, b, "\"", 0);
    HoldsChar(text, b + |k| + 2, ":", 0);
  }

  /** The blank run and the closing brace at the end of an Object. */
  lemma CloseLayout(text: string, v: nat, lvl: nat)
    requires Holds(text, v, "\n" + Tabs(lvl) + "}")
    ensures SkipWs(text, v) == v + lvl + 1 && text[v + lvl + 1] == '}' && Delimited(text, v)
    ensures text[SkipWs(text, v)] == '}' && v + |"\n" + Tabs(lvl) + "}"| == SkipWs(text, v) + 1
  {
    NewlineTabsBlank(lvl);
    HoldsCat(text, v, "\n" + Tabs(lvl), "}");
    SkipWsOver(text, v, "\n" + Tabs(lvl));
    HoldsChar(text, v + lvl + 1, "}", 0);
  }

  /** The entries for the first `i` keys of the writer's order. */
  function Gathered(w: Value, i: nat): (m: map<string, Value>)
    requires w.Object? && i <= |KeysOf(w)|
    ensures forall j :: j in m <==> j in KeysOf(w)[..i]
    ensures forall j :: j in m ==> m[j] == w.fields[j]
  {
    var ks := KeysOf(w);
    if i == 0 then map[]
    else
      assert ks[..i] == ks[..i - 1] + [ks[i - 1]];
      Gathered(w, i - 1)[ks[i - 1] := w.fields[ks[i - 1]]]
  }

  /** The slot of an Object after its first `i` entries were read: Null before the first. */
  function Partial(w: Value, i: nat): Value
    requires w.Object? && i <= |KeysOf(w)|
  {
    if i == 0 then Null else Object(Gathered(w, i))
  }

  lemma PartialNext(w: Value, i: nat)
    requires w.Object? && i < |KeysOf(w)|
    ensures var k := KeysOf(w)[i];
      Lookup(Partial(w, i), k) == Object(FieldsOf(Partial(w, i))[k := Null]) &&
      Object(FieldsOf(Partial(w, i))[k := w.fields[k]]) == Partial(w, i + 1)
  {
    var ks := KeysOf(w);
    var k := ks[i];
    assert FieldsOf(Partial(w, i)) == Gathered(w, i);
    assert k !in ks[..i];
  }

  lemma PartialAll(w: Value)
    requires w.Object? && |w.fields| > 0
    ensures Partial(w, |KeysOf(w)|) == w
  {
    var ks := KeysOf(w);
    assert ks[..|ks|] == ks;
    var m := Gathered(w, |ks|);
    assert forall j :: j in m <==> j in w.fields;
    assert m == w.fields;
  }

  /** Entry `i` of a partly read Object: it holds Null, and putting the value there gives
      the Object of the first `i + 1` entries. */
  lemma EntrySlot(tree0: Value, q: Path, w: Value, i: nat, k: string, tree: Value, tree1: Value)
    requires w.Object? && i < |KeysOf(w)| && Resolves(tree0, q) && k == KeysOf(w)[i]
    requires tree == Put(tree0, q, Object(FieldsOf(Partial(w, i))[k := Null]))
    requires tree1 == Put(tree0, q, Partial(w, i + 1))
    ensures Resolves(tree, q + [Key(k)]) && At(tree, q + [Key(k)]) == Null
    ensures Put(tree, q + [Key(k)], w.fields[k]) == tree1
  {
    var fs := FieldsOf(Partial(w, i));
    var whole := Partial(w, i + 1);
    PartialNext(w, i);
    assert whole == Object(fs[k := w.fields[k]]);
    SlotBelow(tree0, q, fs, k, w.fields[k], whole);
  }

  /** Filling a fresh Null entry `k` of an Object slot. */
  lemma SlotBelow(tree0: Value, q: Path, fs: map<string, Value>, k: string, x: Value, whole: Value)
    requires Resolves(tree0, q) && whole == Object(fs[k := x])
    ensures var tree := Put(tree0, q, Object(fs[k := Null]));
      Resolves(tree, q + [Key(k)]) && At(tree, q + [Key(k)]) == Null &&
      Put(tree, q + [Key(k)], x) == Put(tree0, q, whole)
  {
    var partial := Object(fs[k := Null]);
    var tree := Put(tree0, q, partial);
    assert [Key(k)][1..] == [];
    assert Resolves(partial, [Key(k)]);
    ResolvesBelow(tree0, q, partial, Key(k));
    PutBelow(tree, q, Key(k), x);
    assert fs[k := Null][k := x] == fs[k := x];
    assert Put(partial, [Key(k)], x) == whole;
    PutPut(tree0, q, partial, whole);
  }

  /** After `{` or a separator: `>>` reads the quote, the key is collected up to the
      closing quote, and `>>` reads the colon. */
  lemma KeyScan(text: string, c: nat, e: char, k: string, lvl: nat)
    requires c + 1 <= |text| && Holds(text, c + 1, EntryOpen(k, lvl)) && PlainKey(k)
    ensures c + 1 + |EntryOpen(k, lvl)| == c + lvl + |k| + 6 <= |text|
    ensures ExtractChar(Input(text, c + 1, false), e) == Got(true, '"', Input(text, c + lvl + 4, false))
    ensures UntilQuote(Input(text, c + lvl + 4, false), '"', true) == Scanned(k, Input(text, c + lvl + |k| + 5, false), '"')
    ensures ExtractChar(Input(text, c + lvl + |k| + 5, false), '"') == Got(true, ':', Input(text, c + lvl + |k| + 6, false))
  {
    EntryOpenLayout(text, c + 1, k, lvl);
    QuoteAfterBlank(text, c + 1, "\n" + Tabs(lvl) + "\t", e);
    QuoteOver(text, c + lvl + 4, k, '"', true);
    ExtractHere(text, c + lvl + |k| + 5, '"');
  }

  /** `>>` skips a blank run and reads the quote after it. */
  lemma QuoteAfterBlank(text: string, b: nat, ws: string, e: char)
    requires Holds(text, b, ws) && AllSpace(ws) && b + |ws| < |text| && text[b + |ws|] == '"'
    ensures ExtractChar(Input(text, b, false), e) == Got(true, '"', Input(text, b + |ws| + 1, false))
  {
    SkipWsOver(text, b, ws);
    assert SkipWs(text, b + |ws|) == b + |ws|;
    ExtractSkipping(Input(text, b, false), e);
  }

  /** The Object branch after `{` or a separator, over a key and its colon. */
  lemma EntryTurn(S: seq<Path>, q: Path, tree: Value, text: string, c: nat, e: char, k: string, lvl: nat, h: nat,
                  grown: Value, next: State)
    requires Resolves(tree, q) && c + 1 <= |text|
    requires !(At(tree, q).Object? && e == '}')
    requires Holds(text, c + 1, EntryOpen(k, lvl)) && PlainKey(k) && h == c + 1 + |EntryOpen(k, lvl)|
    requires grown == Put(tree, q, Lookup(At(tree, q), k))
    requires next == State(Input(text, h, false), ':', (S + [q]) + [q + [Key(k)]], grown)
    ensures ObjectStep(S, q, tree, Input(text, c + 1, false), e) == Next(next)
  {
    KeyScan(text, c, e, k, lvl);
    PushTwo(S, q, q + [Key(k)]);
    ObjectStepEntry(S, q, tree, Input(text, c + 1, false), e,
                    Got(true, '"', Input(text, c + lvl + 4, false)),
                    Scanned(k, Input(text, c + lvl + |k| + 5, false), '"'),
                    Got(true, ':', Input(text, c + lvl + |k| + 6, false)));
  }

  /** The Object branch when `>>` reads a quote, the key is closed and `>>` reads a colon. */
  lemma ObjectStepEntry(S: seq<Path>, q: Path, tree: Value, s: Input, e: char, g: Got, key: Scanned, colon: Got)
    requires Resolves(tree, q) && Placed(s) && !(At(tree, q).Object? && e == '}')
    requires ExtractChar(s, e) == g && g.c == '"'
    requires UntilQuote(g.rest, g.c, true) == key && !key.rest.eof
    requires ExtractChar(key.rest, key.eater) == colon && colon.c == ':'
    ensures ObjectStep(S, q, tree, s, e) ==
      Next(State(colon.rest, ':', S + [q, q + [Key(key.text)]], Put(tree, q, Lookup(At(tree, q), key.text))))
  {
  }

  lemma PushTwo(S: seq<Path>, p: Path, p': Path)
    ensures S + [p, p'] == (S + [p]) + [p']
  {
  }

  /** The slot of a partly read Object, once the reader has added the Null entry `k`. */
  lemma OpenedTree(w: Value, i: nat, k: string, tree0: Value, q: Path, tree: Value)
    requires w.Object? && i < |KeysOf(w)| && k == KeysOf(w)[i] && Resolves(tree0, q)
    requires tree == Put(tree0, q, Partial(w, i))
    ensures Resolves(tree, q) && (i > 0 ==> At(tree, q).Object?)
    ensures Put(tree, q, Lookup(At(tree, q), k)) == Put(tree0, q, Object(FieldsOf(Partial(w, i))[k := Null]))
  {
    PartialNext(w, i);
    PutPut(tree0, q, Partial(w, i), Lookup(Partial(w, i), k));
  }

  /** The turn that opens entry `i` of an Object: `>>` reads the opening brace or the
      separator, then the quote, the key, the quote and the colon; the entry is created
      and pushed. */
  lemma OpenEntry(w: Value, i: nat, lvl: nat, stod: string -> Option<bv32>,
                  st: State, text: string, c: nat, k: string, h: nat, S: seq<Path>, q: Path, tree0: Value, next: State)
    requires w.Object? && Admissible(w) && i < |KeysOf(w)| && k == KeysOf(w)[i]
    requires Wf(st) && st.stack == S + [q] && st.input.text == text && !st.input.eof && Resolves(tree0, q)
    requires st.tree == Put(tree0, q, Partial(w, i))
    requires SkipWs(text, st.input.pos) == c && c < |text| && text[c] == (if i == 0 then '{' else ',')
    requires Holds(text, c + 1, EntryOpen(k, lvl)) && h == c + 1 + |EntryOpen(k, lvl)|
    requires next == State(Input(text, h, false), ':', (S + [q]) + [q + [Key(k)]],
                           Put(tree0, q, Object(FieldsOf(Partial(w, i))[k := Null])))
    ensures Step(st, stod) == Next(next)
  {
    FieldAdmissible(w, i, k);
    OpenedTree(w, i, k, tree0, q, st.tree);
    ExtractSkipping(st.input, st.eater);
    DispatchObject(st, stod, text[c], Input(text, c + 1, false), S, q);
    EntryTurn(S, q, st.tree, text, c, text[c], k, lvl, h, Put(tree0, q, Object(FieldsOf(Partial(w, i))[k := Null])), next);
  }

  /** The turn after the last entry's value: `>>` reads the closing brace, which pops the
      Object. */
  lemma ObjectCloseStep(x: Value, text: string, v: nat, S: seq<Path>, q: Path, tree: Value,
                        stod: string -> Option<bv32>, mid: State, next: State)
    requires Delimited(text, v) && text[SkipWs(text, v)] == '}'
    requires Resolves(tree, q) && At(tree, q).Object?
    requires mid == Landed(x, text, v, S + [q], tree) && Wf(mid)
    requires next == State(Input(text, SkipWs(text, v) + 1, false), '}', S, tree)
    ensures Step(mid, stod) == Next(next)
  {
    ExtractAfter(x, text, v, mid);
    DispatchObject(mid, stod, '}', Input(text, SkipWs(text, v) + 1, false), S, q);
  }

  /** The text of an Object: its opening brace and its body. */
  lemma ObjectLayout(w: Value, lvl: nat, ft: bv32 -> string, text: string, a: nat)
    requires w.Object? && Holds(text, a, Render(w, lvl, ft))
    ensures text[a] == '{' && Holds(text, a + 1, Body(w, 0, lvl, ft))
    ensures |Render(w, lvl, ft)| == |Body(w, 0, lvl, ft)| + 1
  {
    assert Render(w, lvl, ft) == "{" + Body(w, 0, lvl, ft);
    HoldsCat(text, a, "{", Body(w, 0, lvl, ft));
    HoldsChar(text, a, "{", 0);
  }

  lemma {:induction false} FillObject(w: Value, r: string, lvl: nat, ft: bv32 -> string, stod: string -> Option<bv32>,
                                      text: string, a: nat, e: char, S: seq<Path>, q: Path, tree: Value, full: Value,
                                      st: State, land: State)
    requires w.Object? && Admissible(w) && r == Render(w, lvl, ft) && Holds(text, a, r)
    requires st == State(Input(text, a, false), e, S + [q], tree)
    requires Wf(st) && Resolves(tree, q) && At(tree, q) == Null && full == Put(tree, q, w)
    requires land == Landed(w, text, a + |r|, S, full)
    ensures Leads(st, land, stod)
    decreases w, 2, 0
  {
    ObjectLayout(w, lvl, ft, text, a);
    assert SkipWs(text, a) == a;
    PutAt(tree, q);
    assert |KeysOf(w)| > 0;
    FillEntries(w, 0, lvl, ft, stod, text, st, a, S, q, tree, full, a + |r|, land);
  }

  /** Where entry `i` of an Object's body begins and ends, and what follows it. */
  lemma EntryLayout(w: Value, i: nat, lvl: nat, ft: bv32 -> string, text: string, c: nat, k: string, r: string, h: nat, v: nat)
    requires w.Object? && i < |KeysOf(w)| && Holds(text, c + 1, Body(w, i, lvl, ft))
    requires k == KeysOf(w)[i] && r == Render(w.fields[k], lvl + 1, ft)
    requires h == c + 1 + |EntryOpen(k, lvl)| && v == h + |r|
    ensures Holds(text, c + 1, EntryOpen(k, lvl)) && Holds(text, h, r)
    ensures v < |text| && Delimited(text, v)
    ensures i + 1 < |KeysOf(w)| ==>
      text[v] == ',' && SkipWs(text, v) == v && Holds(text, v + 1, Body(w, i + 1, lvl, ft)) &&
      c + 1 + |Body(w, i, lvl, ft)| == v + 1 + |Body(w, i + 1, lvl, ft)|
    ensures i + 1 == |KeysOf(w)| ==>
      text[SkipWs(text, v)] == '}' && c + 1 + |Body(w, i, lvl, ft)| == SkipWs(text, v) + 1
  {
    var more := i + 1 < |KeysOf(w)|;
    var tail := if more then "," + Body(w, i + 1, lvl, ft) else "\n" + Tabs(lvl) + "}";
    EntrySplit(w, i, lvl, ft, text, c, k, r, h, v, tail);
    if more {
      CommaThen(text, v, Body(w, i + 1, lvl, ft));
    } else {
      CloseLayout(text, v, lvl);
    }
  }

  /** A separator followed by `rest`, right where a value's text ends. */
  lemma CommaThen(text: string, v: nat, rest: string)
    requires Holds(text, v, "," + rest)
    ensures v < |text| && text[v] == ',' && SkipWs(text, v) == v && Delimited(text, v) && Holds(text, v + 1, rest)
  {
    HoldsChar(text, v, "," + rest, 0);
    HoldsCat(text, v, ",", rest);
    CommaAt(text, v);
  }

  /** Entry `i` of an Object's body: its opening, its value's text and what follows. */
  lemma EntrySplit(w: Value, i: nat, lvl: nat, ft: bv32 -> string, text: string, c: nat, k: string, r: string,
                   h: nat, v: nat, tail: string)
    requires w.Object? && i < |KeysOf(w)| && Holds(text, c + 1, Body(w, i, lvl, ft))
    requires k == KeysOf(w)[i] && r == Render(w.fields[k], lvl + 1, ft)
    requires h == c + 1 + |EntryOpen(k, lvl)| && v == h + |r|
    requires tail == if i + 1 < |KeysOf(w)| then "," + Body(w, i + 1, lvl, ft) else "\n" + Tabs(lvl) + "}"
    ensures Holds(text, c + 1, EntryOpen(k, lvl)) && Holds(text, h, r) && Holds(text, v, tail)
    ensures c + 1 + |Body(w, i, lvl, ft)| == v + |tail|
  {
    BodySplit(w, i, lvl, ft);
    assert Body(w, i, lvl, ft) == EntryOpen(k, lvl) + r + tail;
    HoldsCat(text, c + 1, EntryOpen(k, lvl) + r, tail);
    HoldsCat(text, c + 1, EntryOpen(k, lvl), r);
  }

  /** A separator right where a value's text ends delimits it. */
  lemma CommaAt(text: string, v: nat)
    requires v < |text| && text[v] == ','
    ensures SkipWs(text, v) == v && Delimited(text, v)
  {
  }

  /** The key of entry `i` of an admissible Object and its value are admissible. */
  lemma FieldAdmissible(w: Value, i: nat, k: string)
    requires w.Object? && Admissible(w) && i < |KeysOf(w)| && k == KeysOf(w)[i]
    ensures k in w.fields && PlainKey(k) && Admissible(w.fields[k])
  {
  }

  /** The turn that opens entry `i`, as a step of the parse. */
  lemma EnterEntry(w: Value, i: nat, lvl: nat, stod: string -> Option<bv32>,
                   st: State, text: string, c: nat, k: string, h: nat, S: seq<Path>, q: Path, tree0: Value, next: State)
    requires w.Object? && Admissible(w) && i < |KeysOf(w)| && k == KeysOf(w)[i]
    requires Wf(st) && st.stack == S + [q] && st.input.text == text && !st.input.eof && Resolves(tree0, q)
    requires st.tree == Put(tree0, q, Partial(w, i))
    requires SkipWs(text, st.input.pos) == c && c < |text| && text[c] == (if i == 0 then '{' else ',')
    requires Holds(text, c + 1, EntryOpen(k, lvl)) && h == c + 1 + |EntryOpen(k, lvl)|
    requires next == State(Input(text, h, false), ':', (S + [q]) + [q + [Key(k)]],
                           Put(tree0, q, Object(FieldsOf(Partial(w, i))[k := Null])))
    ensures Leads(st, next, stod)
  {
    OpenEntry(w, i, lvl, stod, st, text, c, k, h, S, q, tree0, next);
    RunNext(st, stod, next);
  }

  /** The value of entry `i` is read into its Null slot, which is then popped: the Object's
      slot on top holds the first `i + 1` entries. */
  lemma {:induction false} FillEntry(w: Value, i: nat, lvl: nat, ft: bv32 -> string, stod: string -> Option<bv32>,
                                     text: string, h: nat, v: nat, k: string, x: Value, r: string, S: seq<Path>, q: Path,
                                     tree: Value, tree1: Value, st: State, mid: State)
    requires w.Object? && i < |KeysOf(w)| && k in w.fields && x == w.fields[k] && Admissible(x)
    requires r == Render(x, lvl + 1, ft) && Holds(text, h, r)
    requires v == h + |r| && v <= |text| && Delimited(text, v)
    requires st == State(Input(text, h, false), ':', (S + [q]) + [q + [Key(k)]], tree)
    requires Wf(st) && Resolves(tree, q + [Key(k)]) && At(tree, q + [Key(k)]) == Null
    requires tree1 == Put(tree, q + [Key(k)], x)
    requires mid == Landed(x, text, v, S + [q], tree1)
    ensures Leads(st, mid, stod)
    decreases w, 1, |KeysOf(w)| - i, 0
  {
    Fill(x, r, lvl + 1, ft, stod, text, h, ':', S + [q], q + [Key(k)], tree, tree1, st, mid);
  }

  /** From the turn that reads the opening brace (`i == 0`) or the separator before entry
      `i`: the remaining entries are read, and the closing brace pops the Object's slot. */
  lemma {:induction false} FillEntries(w: Value, i: nat, lvl: nat, ft: bv32 -> string, stod: string -> Option<bv32>,
                                       text: string, st: State, c: nat, S: seq<Path>, q: Path, tree0: Value,
                                       full: Value, end: nat, land: State)
    requires w.Object? && Admissible(w) && i < |KeysOf(w)|
    requires Wf(st) && st.stack == S + [q] && st.input.text == text && !st.input.eof && Resolves(tree0, q)
    requires st.tree == Put(tree0, q, Partial(w, i))
    requires SkipWs(text, st.input.pos) == c && c < |text|
    requires text[c] == (if i == 0 then '{' else ',')
    requires Holds(text, c + 1, Body(w, i, lvl, ft))
    requires end == c + 1 + |Body(w, i, lvl, ft)| && full == Put(tree0, q, w) && land == Landed(w, text, end, S, full)
    ensures Leads(st, land, stod)
    decreases w, 1, |KeysOf(w)| - i, 3
  {
    var k := KeysOf(w)[i];
    var x := w.fields[k];
    var r := Render(x, lvl + 1, ft);
    var h := c + 1 + |EntryOpen(k, lvl)|;
    var v := h + |r|;
    EntryLayout(w, i, lvl, ft, text, c, k, r, h, v);
    var mid := Landed(x, text, v, S + [q], Put(tree0, q, Partial(w, i + 1)));
    EntryValue(w, i, lvl, ft, stod, text, st, c, S, q, tree0, k, x, r, h, v, mid);
    EntriesAfter(w, i, lvl, ft, stod, text, v, S, q, tree0, mid, full, end, land);
  }

  /** From the turn that reads the opening brace or the separator before entry `i`: the
      entry is opened and its value read, and its slot is popped. */
  lemma {:induction false} EntryValue(w: Value, i: nat, lvl: nat, ft: bv32 -> string, stod: string -> Option<bv32>,
                                      text: string, st: State, c: nat, S: seq<Path>, q: Path, tree0: Value,
                                      k: string, x: Value, r: string, h: nat, v: nat, mid: State)
    requires w.Object? && Admissible(w) && i < |KeysOf(w)| && k == KeysOf(w)[i] && x == w.fields[k]
    requires r == Render(x, lvl + 1, ft)
    requires Wf(st) && st.stack == S + [q] && st.input.text == text && !st.input.eof && Resolves(tree0, q)
    requires st.tree == Put(tree0, q, Partial(w, i))
    requires SkipWs(text, st.input.pos) == c && c < |text| && text[c] == (if i == 0 then '{' else ',')
    requires Holds(text, c + 1, EntryOpen(k, lvl)) && h == c + 1 + |EntryOpen(k, lvl)|
    requires Holds(text, h, r) && v == h + |r| && v < |text| && Delimited(text, v)
    requires mid == Landed(x, text, v, S + [q], Put(tree0, q, Partial(w, i + 1)))
    ensures Leads(st, mid, stod)
    decreases w, 1, |KeysOf(w)| - i, 2
  {
    var tree := Put(tree0, q, Object(FieldsOf(Partial(w, i))[k := Null]));
    var st1 := State(Input(text, h, false), ':', (S + [q]) + [q + [Key(k)]], tree);
    EnterEntry(w, i, lvl, stod, st, text, c, k, h, S, q, tree0, st1);
    SlotValue(w, i, lvl, ft, stod, text, h, v, k, x, r, S, q, tree0, tree, st1, mid);
    LeadsChain(st, st1, mid, stod);
  }

  /** The value of entry `i`, read into the entry's fresh Null slot. */
  lemma {:induction false} SlotValue(w: Value, i: nat, lvl: nat, ft: bv32 -> string, stod: string -> Option<bv32>,
                                     text: string, h: nat, v: nat, k: string, x: Value, r: string, S: seq<Path>, q: Path,
                                     tree0: Value, tree: Value, st: State, mid: State)
    requires w.Object? && Admissible(w) && i < |KeysOf(w)| && k == KeysOf(w)[i] && x == w.fields[k]
    requires r == Render(x, lvl + 1, ft) && Holds(text, h, r)
    requires v == h + |r| && v < |text| && Delimited(text, v) && Resolves(tree0, q)
    requires tree == Put(tree0, q, Object(FieldsOf(Partial(w, i))[k := Null]))
    requires st == State(Input(text, h, false), ':', (S + [q]) + [q + [Key(k)]], tree) && Wf(st)
    requires mid == Landed(x, text, v, S + [q], Put(tree0, q, Partial(w, i + 1)))
    ensures Leads(st, mid, stod)
    decreases w, 1, |KeysOf(w)| - i, 1
  {
    var tree1 := Put(tree0, q, Partial(w, i + 1));
    EntrySlot(tree0, q, w, i, k, tree, tree1);
    FieldAdmissible(w, i, k);
    FillEntry(w, i, lvl, ft, stod, text, h, v, k, x, r, S, q, tree, tree1, st, mid);
  }

  /** From the state after the value of entry `i`: the separator and the remaining
      entries, or the closing brace. */
  lemma {:induction false} EntriesAfter(w: Value, i: nat, lvl: nat, ft: bv32 -> string, stod: string -> Option<bv32>,
                                        text: string, v: nat, S: seq<Path>, q: Path, tree0: Value,
                                        mid: State, full: Value, end: nat, land: State)
    requires w.Object? && Admissible(w) && i < |KeysOf(w)| && Resolves(tree0, q)
    requires v < |text| && Delimited(text, v)
    requires i + 1 < |KeysOf(w)| ==>
      text[v] == ',' && SkipWs(text, v) == v && Holds(text, v + 1, Body(w, i + 1, lvl, ft)) &&
      end == v + 1 + |Body(w, i + 1, lvl, ft)|
    requires i + 1 == |KeysOf(w)| ==> text[SkipWs(text, v)] == '}' && end == SkipWs(text, v) + 1
    requires mid == Landed(w.fields[KeysOf(w)[i]], text, v, S + [q], Put(tree0, q, Partial(w, i + 1))) && Wf(mid)
    requires end <= |text| && full == Put(tree0, q, w) && land == Landed(w, text, end, S, full)
    ensures Leads(mid, land, stod)
    decreases w, 1, |KeysOf(w)| - i, 1
  {
    var x := w.fields[KeysOf(w)[i]];
    if i + 1 < |KeysOf(w)| {
      FillEntries(w, i + 1, lvl, ft, stod, text, mid, v, S, q, tree0, full, end, land);
    } else {
      PartialAll(w);
      CloseEntries(x, text, v, S, q, full, stod, mid, land);
    }
  }

  lemma CloseEntries(x: Value, text: string, v: nat, S: seq<Path>, q: Path, tree: Value,
                     stod: string -> Option<bv32>, mid: State, next: State)
    requires Delimited(text, v) && text[SkipWs(text, v)] == '}'
    requires Resolves(tree, q) && At(tree, q).Object?
    requires mid == Landed(x, text, v, S + [q], tree) && Wf(mid)
    requires next == State(Input(text, SkipWs(text, v) + 1, false), '}', S, tree)
    ensures Leads(mid, next, stod)
  {
    ObjectCloseStep(x, text, v, S, q, tree, stod, mid, next);
    RunNext(mid, stod, next);
  }

  // ---------------------------------------------------------------- the round trip

  /** Reading the text `write` produces for an admissible container into a Null json
      completes, consumes the whole text and rebuilds the value. */
  lemma RoundTrip(v: Value, ft: bv32 -> string, stod: string -> Option<bv32>)
    requires Admissible(v) && (v.Array? || v.Object?)
    ensures var text := Render(v, 0, ft);
      Parse(Input(text, 0, false), Null, stod) == Outcome(Completed, Input(text, |text|, false), v)
  {
    var text := Render(v, 0, ft);
    var st := Start(Input(text, 0, false), Null);
    var full := Put(Null, [], v);
    var land := Landed(v, text, |text|, [], full);
    FillRoot(v, ft, stod, text, st, full, land);
    Finished(v, text, full, land, stod);
  }

  /** The text of the value fills the root slot of a Null json. */
  lemma FillRoot(v: Value, ft: bv32 -> string, stod: string -> Option<bv32>, text: string, st: State, full: Value, land: State)
    requires Admissible(v) && (v.Array? || v.Object?) && text == Render(v, 0, ft)
    requires st == Start(Input(text, 0, false), Null)
    requires full == Put(Null, [], v) && land == Landed(v, text, |text|, [], full)
    ensures Leads(st, land, stod)
  {
    assert Holds(text, 0, text);
    assert st == State(Input(text, 0, false), 0 as char, [] + [[]], Null);
    Fill(v, text, 0, ft, stod, text, 0, 0 as char, [], [], Null, full, st, land);
  }

  /** Once the value at the root is read, the stack is empty and the parse completes. */
  lemma Finished(v: Value, text: string, full: Value, land: State, stod: string -> Option<bv32>)
    requires v.Array? || v.Object?
    requires full == Put(Null, [], v) && land == Landed(v, text, |text|, [], full)
    ensures Run(land, stod) == Outcome(Completed, Input(text, |text|, false), v)
  {
  }

  /** `os << v` followed by `is >> j` on what was written, with `j` Null: the reader
      completes and `j` equals `v`. */
  method WriteThenRead(v: Value, ft: bv32 -> string, stod: string -> Option<bv32>) returns (status: Status, back: Value)
    requires Admissible(v) && (v.Array? || v.Object?)
    ensures status == Completed && back == v
  {
    var text := Write(v, 0, ft, "");
    assert text == Render(v, 0, ft);
    var input := new InStream(text);
    var reader := new Reader(input);
    var j := new Json();
    RoundTrip(v, ft, stod);
    status := reader.Read(j, stod);
    back := j.value;
  }
}
