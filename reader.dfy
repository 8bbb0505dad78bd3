/** `json::reader` (json.hpp:322-419): the token classifier `is`, the conversions
    `to<int>`/`to<bool>`, and `read`, which fills a json from a stream with a stack of
    pending slots.

    `Classify`, the scanners and `Step` say what one turn of the `read` loop does; `Run`
    iterates `Step` until the stack is empty or the turn ends the parse. The class
    `Reader` holds the stream and the token buffer and performs the same loop in place;
    `Reader.Read` is proved to end exactly as `Run` says.

    Where the source loops forever (a scalar token with no delimiter before the end of
    the input, an Array opened on an exhausted stream), the model stops with the status
    `Diverged` instead. */
module Reader {
  import opened JsonValue
  import opened Paths
  import opened Stream
  import opened Numerals

  /** The characters that end a scalar token without being consumed: `,`, `]`, `}`. */
  predicate IsDelimiter(c: char)
  {
    c == ',' || c == ']' || c == '}'
  }

  // ---------------------------------------------------------------- reader::is

  /** The number of dots in `b`. */
  function DotCount(b: string): (n: nat)
    ensures n <= |b|
  {
    if b == [] then 0 else DotCount(b[..|b| - 1]) + (if b[|b| - 1] == '.' then 1 else 0)
  }

  /** The number scan of `is` runs to the end: every character except possibly the last
      is a digit or a dot. The last character is consumed before it is tested, so its
      test does not decide whether the scan is complete. */
  predicate ScanCompletes(b: string)
  {
    forall i :: 0 <= i < |b| - 1 ==> IsDigit(b[i]) || b[i] == '.'
  }

  /** `reader::is()` on a non-empty buffer: what kind of token it holds, or `throw -3`. */
  function Classify(b: string): (r: Result<JsonType>)
    requires |b| > 0
  {
    if b[0] == '"' && b[|b| - 1] == '"' then Success(StringTag)
    else if ScanCompletes(b) && DotCount(b) == 1 then Success(FloatTag)
    else if ScanCompletes(b) && DotCount(b) == 0 then Success(DecimalTag)
    else if b == "null" then Success(NullTag)
    else if b == "true" || b == "false" then Success(BooleanTag)
    else Failure(BadToken)
  }

  /** Where the scan of `is` breaks off at position `pos - 1`, having consumed that
      character: the scan is complete exactly when that was the last character, and then
      the dots counted so far are all the dots. */
  lemma ScanStop(b: string, pos: nat)
    requires 1 <= pos <= |b|
    requires forall i :: 0 <= i < pos - 1 ==> IsDigit(b[i]) || b[i] == '.'
    requires DotCount(b[..pos - 1]) <= 1
    requires (!IsDigit(b[pos - 1]) && b[pos - 1] != '.') || (b[pos - 1] == '.' && DotCount(b[..pos - 1]) == 1)
    ensures pos == |b| ==> ScanCompletes(b) && DotCount(b) == DotCount(b[..pos])
    ensures pos < |b| ==> !(ScanCompletes(b) && DotCount(b) <= 1)
  {
    assert b[..pos][..pos - 1] == b[..pos - 1];
    if pos < |b| {
      if b[pos - 1] == '.' {
        DotCountPrefix(b, pos);
      }
    } else {
      assert b[..pos] == b;
    }
  }

  /** A prefix has no more dots than the whole. */
  lemma {:induction false} DotCountPrefix(b: string, n: nat)
    requires n <= |b|
    ensures DotCount(b[..n]) <= DotCount(b)
    decreases |b|
  {
    if n < |b| {
      var c := b[..|b| - 1];
      assert c[..n] == b[..n];
      DotCountPrefix(c, n);
    } else {
      assert b[..n] == b;
    }
  }

  /** A buffer of digits is a Decimal token, and so is a buffer of digits followed by any
      one character other than a dot: the last character is never examined by the
      number scan, which is why `12a`, `n` and `]` are Decimal tokens. */
  lemma {:induction false} DigitsThenAnyIsDecimal(ds: string, c: char)
    requires AllDigits(ds) && c != '.' && c != '"'
    ensures Classify(ds + [c]) == Success(DecimalTag)
    decreases |ds|
  {
    var b := ds + [c];
    assert b[..|b| - 1] == ds;
    DigitsHaveNoDots(ds);
  }

  lemma {:induction false} DigitsHaveNoDots(ds: string)
    requires AllDigits(ds)
    ensures DotCount(ds) == 0
    decreases |ds|
  {
    if ds != [] {
      DigitsHaveNoDots(ds[..|ds| - 1]);
    }
  }

  /** The decimal text of a number is a Decimal token. */
  lemma NumberTextIsDecimal(n: nat)
    ensures Classify(NatText(n)) == Success(DecimalTag)
  {
    var t := NatText(n);
    DigitsHaveNoDots(t);
  }

  /** The words the writer uses for Null and Boolean are recognised. */
  lemma WordsClassified()
    ensures Classify("null") == Success(NullTag)
    ensures Classify("true") == Success(BooleanTag)
    ensures Classify("false") == Success(BooleanTag)
  {
    FirstCharStops("null");
    FirstCharStops("true");
    FirstCharStops("false");
  }

  /** A buffer of two or more characters whose first is neither a digit nor a dot is not
      a number. */
  lemma FirstCharStops(b: string)
    requires |b| >= 2 && !IsDigit(b[0]) && b[0] != '.'
    ensures !ScanCompletes(b)
  {
  }

  lemma DotCountSnoc(b: string, c: char)
    ensures DotCount(b + [c]) == DotCount(b) + (if c == '.' then 1 else 0)
  {
    assert (b + [c])[..|b|] == b;
  }

  /** Classifications the off-by-one produces: a trailing letter still makes a Decimal or
      a Float, a lone letter is a Decimal, and a second dot anywhere is rejected. */
  lemma ClassifyExamples()
    ensures Classify("12a") == Success(DecimalTag)
    ensures Classify("n") == Success(DecimalTag)
    ensures Classify("1.5x") == Success(FloatTag)
    ensures Classify("1..") == Failure(BadToken)
    ensures Classify("nul") == Failure(BadToken)
  {
    DigitsThenAnyIsDecimal("12", 'a');
    assert "12" + ['a'] == "12a";
    DigitsThenAnyIsDecimal("", 'n');
    assert "" + ['n'] == "n";
    DotCountSnoc("", '1');
    assert "" + ['1'] == "1";
    DotCountSnoc("1", '.');
    assert "1" + ['.'] == "1.";
    DotCountSnoc("1.", '5');
    assert "1." + ['5'] == "1.5";
    DotCountSnoc("1.5", 'x');
    assert "1.5" + ['x'] == "1.5x";
    DotCountSnoc("1.", '.');
    assert "1." + ['.'] == "1..";
    FirstCharStops("nul");
  }

  // ---------------------------------------------------------------- scanners

  /** The characters of a scalar token after its first one, with white space dropped, and
      the position of the delimiter that ends it. */
  datatype Token = Token(text: string, end: nat)

  function Prepend(s: string, t: Option<Token>): Option<Token>
  {
    match t
    case None => None
    case Some(tk) => Some(Token(s + tk.text, tk.end))
  }

  lemma PrependNothing(t: Option<Token>)
    ensures Prepend([], t) == t
  {
    if t.Some? {
      assert [] + t.value.text == t.value.text;
    }
  }

  lemma PrependPrepend(a: string, b: string, t: Option<Token>)
    ensures Prepend(a, Prepend(b, t)) == Prepend(a + b, t)
  {
    if t.Some? {
      assert a + (b + t.value.text) == (a + b) + t.value.text;
    }
  }

  /** The token loop of `read` from position `k`: white space is skipped, any other
      character that is not a delimiter is collected, and the loop ends in front of a
      delimiter. `None` when the text ends first: the loop then never ends. */
  function TokenFrom(text: string, k: nat): (r: Option<Token>)
    requires k <= |text|
    ensures r.Some? ==> k <= r.value.end < |text| && IsDelimiter(text[r.value.end])
    ensures r.Some? ==> forall i :: 0 <= i < |r.value.text| ==> !IsSpace(r.value.text[i]) && !IsDelimiter(r.value.text[i])
    decreases |text| - k
  {
    if k == |text| then None
    else if IsSpace(text[k]) then TokenFrom(text, k + 1)
    else if IsDelimiter(text[k]) then Some(Token([], k))
    else Prepend([text[k]], TokenFrom(text, k + 1))
  }

  function ScanToken(s: Input): (r: Option<Token>)
    requires Placed(s)
    ensures r.Some? ==> !s.eof && s.pos <= r.value.end < |s.text| && IsDelimiter(s.text[r.value.end])
  {
    if s.eof then None else TokenFrom(s.text, s.pos)
  }

  /** The token loop in front of a character that is not blank: a delimiter ends the
      token there, any other character is its first. */
  lemma ScanAt(s: Input)
    requires Placed(s) && !s.eof && s.pos < |s.text| && !IsSpace(s.text[s.pos])
    ensures IsDelimiter(s.text[s.pos]) ==> ScanToken(s) == Some(Token([], s.pos))
    ensures !IsDelimiter(s.text[s.pos]) ==>
      ScanToken(s) == Prepend([s.text[s.pos]], ScanToken(Input(s.text, s.pos + 1, false)))
  {
  }

  /** The token loop from `k` ends in front of the first delimiter at or after `k`, and
      it has then collected the non-blank characters before that delimiter. It finds no
      token exactly when no delimiter follows `k`. */
  lemma {:induction false} TokenContents(text: string, k: nat)
    requires k <= |text|
    ensures TokenFrom(text, k).None? <==> forall i :: k <= i < |text| ==> !IsDelimiter(text[i])
    ensures TokenFrom(text, k).Some? ==>
      (forall i :: k <= i < TokenFrom(text, k).value.end ==> !IsDelimiter(text[i])) &&
      TokenFrom(text, k).value.text == Blankless(text[k..TokenFrom(text, k).value.end])
    decreases |text| - k
  {
    if k < |text| && !IsDelimiter(text[k]) {
      TokenContents(text, k + 1);
      var t := TokenFrom(text, k + 1);
      if t.Some? {
        assert text[k..t.value.end][0] == text[k];
        assert text[k..t.value.end][1..] == text[k + 1..t.value.end];
      }
    } else if k < |text| {
      assert text[k..k] == [];
    }
  }

  // ---------------------------------------------------------------- read

  /** The state between two turns of the `read` loop: the stream, `eater`, the stack of
      slots (bottom first) and the tree being filled. */
  datatype State = State(input: Input, eater: char, stack: seq<Path>, tree: Value)

  /** How `read` ends: it returns, it throws, or it never returns. */
  datatype Status = Completed | Threw(error: Error) | Diverged

  datatype Outcome = Outcome(status: Status, input: Input, tree: Value)

  /** One turn of the loop either leads to the next state or ends the parse. */
  datatype Transition = Next(next: State) | Stop(outcome: Outcome)

  /** The stack holds one line of descent: the slot at depth `i` is the prefix of length
      `i` of the slot on top. A parent is pushed back beneath each child it opens, so a
      child is always finished before its parent is resumed. */
  ghost predicate Nested(stack: seq<Path>)
  {
    stack != [] ==>
      var top := stack[|stack| - 1];
      |top| == |stack| - 1 && forall i :: 0 <= i < |stack| ==> stack[i] == top[..i]
  }

  /** A reachable state: the stream is in range, the stack is one line of descent and its
      top slot exists in the tree (so every slot below it exists too). */
  ghost predicate Wf(st: State)
  {
    Placed(st.input) && Nested(st.stack) &&
    (st.stack != [] ==> Resolves(st.tree, st.stack[|st.stack| - 1]))
  }

  /** The state `read(j)` starts in: `eater` is 0 and the stack holds `j` alone. */
  function Start(s: Input, root: Value): (st: State)
    requires Placed(s)
    ensures Wf(st)
  {
    State(s, 0 as char, [[]], root)
  }

  /** One turn of the loop: pop a slot, read a character, and continue in the Object,
      Array, quoted String or scalar branch. */
  function Step(st: State, stod: string -> Option<bv32>): Transition
    requires Wf(st) && st.stack != []
  {
    var n := |st.stack|;
    var p := st.stack[n - 1];
    var below := st.stack[..n - 1];
    var g := ExtractChar(st.input, st.eater);
    var node := At(st.tree, p);
    if node.Object? || g.c == '{' then ObjectStep(below, p, st.tree, g.rest, g.c)
    else if node.Array? || g.c == '[' then ArrayStep(below, p, st.tree, g.rest, g.c)
    else if g.c == '"' then
      var q := UntilQuote(g.rest, g.c, false);
      Next(State(q.rest, q.eater, below, Put(st.tree, p, String(q.text))))
    else ScalarStep(below, p, st.tree, g.rest, g.c, stod)
  }

  /** The Object branch (json.hpp:368-378), entered with the slot at `p` and the character
      `e` just read. A `}` finishes a slot that is an Object already. Otherwise (after a
      `{` or, in an Object, after any separator) a quote, a key and a colon must follow:
      the slot becomes an Object with an entry for the key, and the slot and then the
      entry are pushed. */
  function ObjectStep(below: seq<Path>, p: Path, tree: Value, s: Input, e: char): Transition
    requires Resolves(tree, p) && Placed(s)
  {
    var node := At(tree, p);
    if node.Object? && e == '}' then Next(State(s, e, below, tree))
    else
      var g := ExtractChar(s, e);
      if g.c != '"' then Stop(Outcome(Threw(ParseError), g.rest, tree))
      else
        var k := UntilQuote(g.rest, g.c, true);
        if k.rest.eof then Stop(Outcome(Threw(ParseError), k.rest, tree))
        else
          var c := ExtractChar(k.rest, k.eater);
          if c.c != ':' then Stop(Outcome(Threw(ParseError), c.rest, tree))
          else Next(State(c.rest, c.c, below + [p, p + [Key(k.text)]], Put(tree, p, Lookup(node, k.text))))
  }

  /** The Array branch (json.hpp:379-384). A `]` finishes a slot that is an Array already;
      in an Array any character other than `,` throws. Otherwise the slot is subscripted
      at its size (0 when it is not an Array yet, which makes it one) and the slot and then
      the new element are pushed. A fresh `[` read from a stream that is already at its
      end re-opens forever: that is `Diverged`. */
  function ArrayStep(below: seq<Path>, p: Path, tree: Value, s: Input, e: char): Transition
    requires Resolves(tree, p) && Placed(s)
  {
    var node := At(tree, p);
    if node.Array? && e == ']' then Next(State(s, e, below, tree))
    else if node.Array? && e != ',' then Stop(Outcome(Threw(ParseError), s, tree))
    else if !node.Array? && s.eof then Stop(Outcome(Diverged, s, tree))
    else
      var n := if node.Array? then |node.elems| else 0;
      Next(State(s, e, below + [p, p + [Index(n)]], Put(tree, p, Subscript(node, n).holder)))
  }

  /** The scalar branch (json.hpp:391-416): the token is `e` and what the token loop
      collects; `is` classifies it. A Decimal slot is first set to 0 and then to `stoi`
      of the token, a Float slot to 0 and then to `stod` of it, a Boolean to whether the
      token is `true`; a `null` token leaves the slot as it was. */
  function ScalarStep(below: seq<Path>, p: Path, tree: Value, s: Input, e: char,
                      stod: string -> Option<bv32>): Transition
    requires Resolves(tree, p) && Placed(s)
  {
    match ScanToken(s)
    case None => Stop(Outcome(Diverged, Input(s.text, |s.text|, true), tree))
    case Some(tk) =>
      var buffer := [e] + tk.text;
      var rest := Input(s.text, tk.end, false);
      var next := s.text[tk.end];
      match Classify(buffer)
      case Failure(err) => Stop(Outcome(Threw(err), rest, tree))
      case Success(tag) =>
        if tag == DecimalTag then
          match Stoi(buffer)
          case Failure(err) => Stop(Outcome(Threw(err), rest, Put(tree, p, Decimal(0))))
          case Success(i) => Next(State(rest, next, below, Put(tree, p, Decimal(i))))
        else if tag == FloatTag then
          match stod(buffer)
          case None => Stop(Outcome(Threw(StodFailed), rest, Put(tree, p, Float(0))))
          case Some(f) => Next(State(rest, next, below, Put(tree, p, Float(f))))
        else if tag == BooleanTag then
          Next(State(rest, next, below, Put(tree, p, Boolean(buffer == "true"))))
        else
          Next(State(rest, next, below, tree))
  }

  /** Extra room in the measure for the one turn that makes no progress on an exhausted
      stream: an Array slot resumed with a stale `,` opens one more element. */
  ghost function Pending(st: State): nat
    requires Wf(st)
  {
    if st.stack == [] then 0
    else |st.stack| + (if st.input.eof && st.eater == ',' && At(st.tree, st.stack[|st.stack| - 1]).Array? then 2 else 0)
  }

  ghost predicate Progress(st: State, st': State)
    requires Wf(st) && Wf(st')
  {
    Fuel(st'.input) < Fuel(st.input) || (Fuel(st'.input) == Fuel(st.input) && Pending(st') < Pending(st))
  }

  /** Popping the top slot keeps the state reachable, whatever its slot now holds. */
  lemma PopWf(st: State, s: Input, e: char, tree: Value)
    requires Wf(st) && st.stack != [] && Placed(s)
    requires Resolves(tree, st.stack[|st.stack| - 1])
    ensures Wf(State(s, e, st.stack[..|st.stack| - 1], tree))
  {
    var n := |st.stack|;
    var top := st.stack[n - 1];
    if n > 1 {
      PrefixResolves(tree, top, n - 2);
      var below := st.stack[..n - 1];
      var parent := top[..n - 2];
      assert below[n - 2] == parent;
      forall i | 0 <= i < n - 1
        ensures below[i] == parent[..i]
      {
        assert below[i] == st.stack[i] == top[..i];
      }
    }
  }

  /** Replacing the top slot by a container and pushing it back with the slot of one of
      its children on top keeps the state reachable. */
  lemma PushWf(st: State, s: Input, e: char, holder: Value, step: Selector)
    requires Wf(st) && st.stack != [] && Placed(s)
    requires Resolves(holder, [step])
    ensures var n := |st.stack|;
      var p := st.stack[n - 1];
      var st' := State(s, e, st.stack[..n - 1] + [p, p + [step]], Put(st.tree, p, holder));
      Wf(st') && At(st'.tree, p + [step]) == At(holder, [step])
  {
    var n := |st.stack|;
    var p := st.stack[n - 1];
    var stack := st.stack[..n - 1] + [p, p + [step]];
    ResolvesBelow(st.tree, p, holder, step);
    forall i | 0 <= i < |stack|
      ensures stack[i] == (p + [step])[..i]
    {
      if i < n {
        assert stack[i] == st.stack[i];
      }
    }
  }

  /** Every turn that does not end the parse keeps the state reachable and consumes input
      or, on an exhausted stream, shortens the stack. */
  lemma StepProgress(st: State, stod: string -> Option<bv32>)
    requires Wf(st) && st.stack != [] && Step(st, stod).Next?
    ensures Wf(Step(st, stod).next)
    ensures Progress(st, Step(st, stod).next)
    ensures Step(st, stod).next.input.text == st.input.text
  {
    var n := |st.stack|;
    var p := st.stack[n - 1];
    var below := st.stack[..n - 1];
    var g := ExtractChar(st.input, st.eater);
    var node := At(st.tree, p);
    if node.Object? || g.c == '{' {
      ObjectProgress(st, g);
    } else if node.Array? || g.c == '[' {
      ArrayProgress(st, g);
    } else if g.c == '"' {
      var q := UntilQuote(g.rest, g.c, false);
      PopWf(st, q.rest, q.eater, Put(st.tree, p, String(q.text)));
    } else {
      ScalarProgress(st, g, stod);
    }
  }

  lemma ObjectProgress(st: State, g: Got)
    requires Wf(st) && st.stack != [] && g == ExtractChar(st.input, st.eater)
    requires var n := |st.stack|;
      ObjectStep(st.stack[..n - 1], st.stack[n - 1], st.tree, g.rest, g.c).Next?
    ensures var n := |st.stack|;
      var next := ObjectStep(st.stack[..n - 1], st.stack[n - 1], st.tree, g.rest, g.c).next;
      Wf(next) && Progress(st, next) && next.input.text == st.input.text
  {
    var n := |st.stack|;
    var p := st.stack[n - 1];
    var node := At(st.tree, p);
    if node.Object? && g.c == '}' {
      PopWf(st, g.rest, g.c, st.tree);
    } else {
      var g2 := ExtractChar(g.rest, g.c);
      var k := UntilQuote(g2.rest, g2.c, true);
      var c := ExtractChar(k.rest, k.eater);
      PushWf(st, c.rest, c.c, Lookup(node, k.text), Key(k.text));
    }
  }

  lemma ArrayProgress(st: State, g: Got)
    requires Wf(st) && st.stack != [] && g == ExtractChar(st.input, st.eater)
    requires var n := |st.stack|;
      ArrayStep(st.stack[..n - 1], st.stack[n - 1], st.tree, g.rest, g.c).Next?
    ensures var n := |st.stack|;
      var next := ArrayStep(st.stack[..n - 1], st.stack[n - 1], st.tree, g.rest, g.c).next;
      Wf(next) && Progress(st, next) && next.input.text == st.input.text
  {
    var n := |st.stack|;
    var p := st.stack[n - 1];
    var node := At(st.tree, p);
    if node.Array? && g.c == ']' {
      PopWf(st, g.rest, g.c, st.tree);
    } else {
      var m := if node.Array? then |node.elems| else 0;
      var holder := Subscript(node, m).holder;
      PushWf(st, g.rest, g.c, holder, Index(m));
      assert [Index(m)][1..] == [];
    }
  }

  lemma ScalarProgress(st: State, g: Got, stod: string -> Option<bv32>)
    requires Wf(st) && st.stack != [] && g == ExtractChar(st.input, st.eater)
    requires var n := |st.stack|;
      ScalarStep(st.stack[..n - 1], st.stack[n - 1], st.tree, g.rest, g.c, stod).Next?
    ensures var n := |st.stack|;
      var next := ScalarStep(st.stack[..n - 1], st.stack[n - 1], st.tree, g.rest, g.c, stod).next;
      Wf(next) && Progress(st, next) && next.input.text == st.input.text
  {
    var n := |st.stack|;
    var next := ScalarStep(st.stack[..n - 1], st.stack[n - 1], st.tree, g.rest, g.c, stod).next;
    PopWf(st, next.input, next.eater, next.tree);
  }

  /** The whole parse from `st`: turns are taken until the stack is empty (`Completed`)
      or a turn throws or diverges. */
  function Run(st: State, stod: string -> Option<bv32>): Outcome
    requires Wf(st)
    decreases Fuel(st.input), Pending(st), 1
  {
    if st.stack == [] then Outcome(Completed, st.input, st.tree)
    else AfterTurn(st, stod)
  }

  /** One turn from `st`, then the rest of the parse. */
  function AfterTurn(st: State, stod: string -> Option<bv32>): Outcome
    requires Wf(st) && st.stack != []
    decreases Fuel(st.input), Pending(st), 0
  {
    match Step(st, stod)
    case Stop(o) => o
    case Next(st') => StepProgress(st, stod); Run(st', stod)
  }

  /** The parse from `st` ends as the parse from `later` does. */
  ghost predicate Leads(st: State, later: State, stod: string -> Option<bv32>)
  {
    Wf(st) && Wf(later) && Run(st, stod) == Run(later, stod)
  }

  /** `read(j)` on the stream `s` with `j` holding `root`. */
  function Parse(s: Input, root: Value, stod: string -> Option<bv32>): Outcome
    requires Placed(s)
  {
    Run(Start(s, root), stod)
  }

  // ---------------------------------------------------------------- what read does with some inputs

  /** In an Object slot the character read after an entry is not checked: any separator
      other than `}` is taken as a `,` would be. */
  lemma SeparatorUnchecked(below: seq<Path>, p: Path, tree: Value, s: Input, e: char)
    requires Resolves(tree, p) && Placed(s) && At(tree, p).Object? && e != '}'
    requires ExtractChar(s, e).ok
    ensures ObjectStep(below, p, tree, s, e) == ObjectStep(below, p, tree, s, ',')
  {
    assert ExtractChar(s, e) == ExtractChar(s, ',');
  }

  /** A `null` token leaves its slot as it was: the turn only pops the slot and moves past
      the token. */
  lemma NullLeavesSlot(below: seq<Path>, p: Path, tree: Value, s: Input, e: char,
                       stod: string -> Option<bv32>, tk: Token)
    requires Resolves(tree, p) && Placed(s)
    requires ScanToken(s) == Some(tk) && [e] + tk.text == "null"
    ensures ScalarStep(below, p, tree, s, e, stod) == Next(State(Input(s.text, tk.end, false), s.text[tk.end], below, tree))
  {
    WordsClassified();
  }

  /** The token loop runs off the end of a text that holds no delimiter. */
  lemma {:induction false} NoDelimiterNoToken(text: string, k: nat)
    requires k <= |text|
    requires forall i :: k <= i < |text| ==> !IsDelimiter(text[i])
    ensures TokenFrom(text, k) == None
    decreases |text| - k
  {
    if k < |text| {
      NoDelimiterNoToken(text, k + 1);
    }
  }

  /** A top-level scalar that no `,`, `]` or `}` follows never ends: its token loop waits
      for a delimiter past the end of the stream. Here `42`. */
  lemma BareNumberDiverges(root: Value, stod: string -> Option<bv32>)
    requires !root.Object? && !root.Array?
    ensures Parse(Input("42", 0, false), root, stod) == Outcome(Diverged, Input("42", 2, true), root)
  {
    var st := Start(Input("42", 0, false), root);
    assert SkipWs("42", 0) == 0;
    var g := ExtractChar(st.input, st.eater);
    assert g == Got(true, '4', Input("42", 1, false));
    NoDelimiterNoToken("42", 1);
    assert ScanToken(g.rest) == None;
    assert Step(st, stod) == Stop(Outcome(Diverged, Input("42", 2, true), root));
    assert Run(st, stod) == AfterTurn(st, stod);
  }

  /** `{}` does not parse, whatever the json held: after the `{` a quote must follow. */
  lemma EmptyObjectThrows(root: Value, stod: string -> Option<bv32>)
    ensures Parse(Input("{}", 0, false), root, stod) == Outcome(Threw(ParseError), Input("{}", 2, false), root)
  {
    var st := Start(Input("{}", 0, false), root);
    assert SkipWs("{}", 0) == 0;
    var g := ExtractChar(st.input, st.eater);
    assert g == Got(true, '{', Input("{}", 1, false));
    assert SkipWs("{}", 1) == 1;
    assert ExtractChar(g.rest, g.c) == Got(true, '}', Input("{}", 2, false));
    if root.Object? {
      assert ObjectStep([], [], root, g.rest, g.c) == Stop(Outcome(Threw(ParseError), Input("{}", 2, false), root));
    }
    assert Step(st, stod) == Stop(Outcome(Threw(ParseError), Input("{}", 2, false), root));
    assert Run(st, stod) == AfterTurn(st, stod);
  }

  /** `[]` does not parse into a fresh json either: the `[` opens an element, the `]` is
      then read as the first character of that element's scalar token, and the token loop
      never ends. */
  lemma EmptyArrayDiverges(stod: string -> Option<bv32>)
    ensures Parse(Input("[]", 0, false), Null, stod) == Outcome(Diverged, Input("[]", 2, true), Array([Null]))
  {
    var st := Start(Input("[]", 0, false), Null);
    assert SkipWs("[]", 0) == 0;
    assert ExtractChar(st.input, st.eater) == Got(true, '[', Input("[]", 1, false));
    var st1 := State(Input("[]", 1, false), '[', [[], [Index(0)]], Array([Null]));
    assert Subscript(Null, 0).holder == Array([Null]);
    assert Put(Null, [], Array([Null])) == Array([Null]);
    var top: Path := [];
    assert top + [Index(0)] == [Index(0)];
    assert st.stack[..0] + [top, top + [Index(0)]] == st1.stack;
    assert Step(st, stod) == Next(st1);
    StepProgress(st, stod);
    assert Run(st, stod) == AfterTurn(st, stod) == Run(st1, stod);
    assert SkipWs("[]", 1) == 1;
    assert ExtractChar(st1.input, st1.eater) == Got(true, ']', Input("[]", 2, false));
    assert At(st1.tree, [Index(0)]) == Null;
    assert ScanToken(Input("[]", 2, false)) == None;
    assert Step(st1, stod) == Stop(Outcome(Diverged, Input("[]", 2, true), Array([Null])));
    assert Run(st1, stod) == AfterTurn(st1, stod);
  }

  /** A branch of the loop body ended as the transition `t` says: with the next state, or
      with the outcome of the parse. */
  predicate Matches(t: Transition, stop: Option<Status>, s: Input, e: char, stack: seq<Path>, tree: Value)
  {
    match t
    case Next(st) => stop.None? && st == State(s, e, stack, tree)
    case Stop(o) => stop == Some(o.status) && o.input == s && o.tree == tree
  }

  /** `json::reader`: the stream it reads from and the token buffer. */
  class Reader {
    const input: InStream
    var buffer: string

    constructor (input: InStream)
      ensures this.input == input && buffer == []
    {
      this.input := input;
      buffer := [];
    }

    /** `is()`: the scan loop advances `pos` before testing the character at `pos - 1`,
        and counts dots in `status`. */
    method Is() returns (r: Result<JsonType>)
      requires |buffer| > 0
      ensures r == Classify(buffer)
    {
      if buffer[0] == '"' && buffer[|buffer| - 1] == buffer[0] {
        return Success(StringTag);
      }
      var status: int := 0;
      var pos: nat := 0;
      while |buffer| > pos
        invariant pos <= |buffer|
        invariant forall i :: 0 <= i < pos ==> IsDigit(buffer[i]) || buffer[i] == '.'
        invariant status == DotCount(buffer[..pos]) <= 1
        decreases |buffer| - pos
      {
        var c := buffer[pos];
        pos := pos + 1;
        assert buffer[..pos][..pos - 1] == buffer[..pos - 1];
        if IsDigit(c) {
          continue;
        }
        if c == '.' {
          var was := status;
          status := status + 1;
          if was == 0 {
            continue;
          }
        }
        ScanStop(buffer, pos);
        break;
      }
      assert pos == |buffer| ==> buffer[..pos] == buffer;
      status := if pos == |buffer| then status else -1;
      if status == 1 {
        r := Success(FloatTag);
      } else if status == 0 {
        r := Success(DecimalTag);
      } else if buffer == "null" {
        r := Success(NullTag);
      } else if buffer == "true" || buffer == "false" {
        r := Success(BooleanTag);
      } else {
        r := Failure(BadToken);
      }
    }

    /** The loops that collect up to a closing quote: a key with `in >> eater`
        (`skipWs`), a quoted string with `in.get(eater)`. */
    method ReadUntilQuote(e: char, skipWs: bool) returns (e': char)
      requires input.Valid()
      modifies this, input
      ensures input.Valid()
      ensures var q := UntilQuote(old(input.State()), e, skipWs);
        buffer == old(buffer) + q.text && input.State() == q.rest && e' == q.eater
    {
      ghost var s0 := input.State();
      ghost var taken: string := [];
      e' := e;
      while true
        invariant input.Valid() && input.text == s0.text
        invariant buffer == old(buffer) + taken
        invariant var q := UntilQuote(input.State(), e', skipWs);
          UntilQuote(s0, e, skipWs) == Scanned(taken + q.text, q.rest, q.eater)
        decreases Fuel(input.State())
      {
        ghost var here := input.State();
        ghost var g := if skipWs then ExtractChar(here, e') else GetChar(here, e');
        UntilQuoteStep(here, e', skipWs, g);
        var ok;
        if skipWs {
          ok, e' := input.Extract(e');
        } else {
          ok, e' := input.Get(e');
        }
        assert Got(ok, e', input.State()) == g;
        if !ok || e' == '"' {
          assert taken + [] == taken;
          break;
        }
        buffer := buffer + [e'];
        ghost var t := UntilQuote(input.State(), e', skipWs).text;
        Regather(old(buffer), taken, e', t);
        taken := taken + [e'];
      }
    }

    /** A character moved from the front of what is left to the end of what was taken. */
    static lemma Regather(before: string, taken: string, c: char, t: string)
      ensures taken + ([c] + t) == (taken + [c]) + t && (before + taken) + [c] == before + (taken + [c])
    {
    }

    /** `while (std::isspace(in.peek())) in.ignore();`, returning the last `peek`. The
        token that is left to scan is the same. */
    method SkipSpace() returns (c: Option<char>)
      requires input.Valid()
      modifies input
      ensures input.Valid() && Fuel(input.State()) <= old(Fuel(input.State()))
      ensures ScanToken(input.State()) == ScanToken(old(input.State()))
      ensures c.Some? ==> !input.eof && input.pos < |input.text| && c.value == input.text[input.pos] && !IsSpace(c.value)
      ensures c.None? ==> input.eof && input.pos == |input.text|
    {
      c := input.Peek();
      while c.Some? && IsSpace(c.value)
        invariant input.Valid()
        invariant c.Some? ==> !input.eof && input.pos < |input.text| && c.value == input.text[input.pos]
        invariant c.None? ==> input.eof && input.pos == |input.text|
        invariant ScanToken(input.State()) == ScanToken(old(input.State()))
        invariant Fuel(input.State()) <= old(Fuel(input.State()))
        decreases Fuel(input.State())
      {
        input.Ignore();
        c := input.Peek();
      }
    }

    /** The token loop (json.hpp:393-399): skip white space, stop in front of a
        delimiter, collect anything else. `found` is false where the source never leaves
        the loop. */
    method ReadToken(e: char) returns (found: bool, e': char)
      requires input.Valid()
      modifies this, input
      ensures input.Valid()
      ensures var t := ScanToken(old(input.State()));
        found == t.Some? &&
        (found ==> buffer == old(buffer) + t.value.text && input.State() == Input(input.text, t.value.end, false) &&
                   e' == input.text[t.value.end]) &&
        (!found ==> input.State() == Input(input.text, |input.text|, true))
    {
      ghost var s0 := input.State();
      ghost var taken: string := [];
      e' := e;
      PrependNothing(ScanToken(s0));
      while true
        invariant input.Valid() && input.text == s0.text
        invariant buffer == old(buffer) + taken
        invariant ScanToken(s0) == Prepend(taken, ScanToken(input.State()))
        decreases Fuel(input.State())
      {
        var c := SkipSpace();
        if c.None? {
          return false, e';
        }
        e' := c.value;
        ghost var here := input.State();
        ScanAt(here);
        if !IsDelimiter(e') {
          buffer := buffer + [e'];
          input.Ignore();
          assert input.State() == Input(here.text, here.pos + 1, false);
          PrependPrepend(taken, [e'], ScanToken(input.State()));
          taken := taken + [e'];
        } else {
          assert taken + [] == taken;
          break;
        }
      }
      found := true;
    }

    /** The Object branch of the loop body. */
    method ReadEntry(j: Json, below: seq<Path>, p: Path, e: char) returns (stop: Option<Status>, stack: seq<Path>, e': char)
      requires input.Valid() && Resolves(j.value, p) && buffer == []
      modifies this, input, j
      ensures input.Valid()
      ensures Matches(ObjectStep(below, p, old(j.value), old(input.State()), e), stop, input.State(), e', stack, j.value)
    {
      var node := At(j.value, p);
      if node.Object? && e == '}' {
        return None, below, e;
      }
      var ok;
      ghost var s0 := input.State();
      ok, e' := input.Extract(e);
      ghost var g := ExtractChar(s0, e);
      if e' != '"' {
        return Some(Threw(ParseError)), below, e';
      }
      e' := ReadUntilQuote(e', true);
      ghost var k := UntilQuote(g.rest, g.c, true);
      assert buffer == k.text by {
        assert buffer == [] + k.text;
      }
      if input.eof {
        return Some(Threw(ParseError)), below, e';
      }
      ok, e' := input.Extract(e');
      ghost var c := ExtractChar(k.rest, k.eater);
      if e' != ':' {
        return Some(Threw(ParseError)), below, e';
      }
      j.value := Put(j.value, p, Lookup(node, buffer));
      stack := below + [p, p + [Key(buffer)]];
      stop := None;
      assert ObjectStep(below, p, old(j.value), s0, e) == Next(State(c.rest, c.c, stack, j.value));
    }

    /** The Array branch of the loop body. */
    method ReadElement(j: Json, below: seq<Path>, p: Path, e: char) returns (stop: Option<Status>, stack: seq<Path>)
      requires input.Valid() && Resolves(j.value, p)
      modifies j
      ensures Matches(ArrayStep(below, p, old(j.value), input.State(), e), stop, input.State(), e, stack, j.value)
    {
      var node := At(j.value, p);
      if node.Array? && e == ']' {
        return None, below;
      } else if node.Array? && e != ',' {
        return Some(Threw(ParseError)), below;
      } else if !node.Array? && input.eof {
        return Some(Diverged), below;
      }
      var n := if node.Array? then |node.elems| else 0;
      j.value := Put(j.value, p, Subscript(node, n).holder);
      stack := below + [p, p + [Index(n)]];
      stop := None;
    }

    /** The scalar branch of the loop body: the token loop, `is()` and the switch. */
    method ReadScalar(j: Json, below: seq<Path>, p: Path, e: char, stod: string -> Option<bv32>)
      returns (stop: Option<Status>, e': char)
      requires input.Valid() && Resolves(j.value, p) && buffer == []
      modifies this, input, j
      ensures input.Valid()
      ensures Matches(ScalarStep(below, p, old(j.value), old(input.State()), e, stod), stop, input.State(), e', below, j.value)
    {
      buffer := buffer + [e];
      var found;
      found, e' := ReadToken(e);
      if !found {
        return Some(Diverged), e';
      }
      assert buffer == [e] + ScanToken(old(input.State())).value.text;
      var tag := Is();
      if tag.Failure? {
        return Some(Threw(tag.error)), e';
      }
      var tree := j.value;
      if tag.value == DecimalTag {
        j.value := Put(j.value, p, Decimal(0));
        var n := Stoi(buffer);
        if n.Failure? {
          return Some(Threw(n.error)), e';
        }
        PutPut(tree, p, Decimal(0), Decimal(n.value));
        j.value := Put(j.value, p, Decimal(n.value));
      } else if tag.value == FloatTag {
        j.value := Put(j.value, p, Float(0));
        var f := stod(buffer);
        if f.None? {
          return Some(Threw(StodFailed)), e';
        }
        PutPut(tree, p, Float(0), Float(f.value));
        j.value := Put(j.value, p, Float(f.value));
      } else if tag.value == BooleanTag {
        j.value := Put(j.value, p, Boolean(false));
        PutPut(tree, p, Boolean(false), Boolean(buffer == "true"));
        j.value := Put(j.value, p, Boolean(buffer == "true"));
      }
      stop := None;
    }

    /** One turn of the loop of `read`: pop a slot, clear the buffer, read a character
        and take the branch it selects. */
    method Turn(j: Json, stack: seq<Path>, eater: char, stod: string -> Option<bv32>)
      returns (stop: Option<Status>, stack': seq<Path>, eater': char)
      requires input.Valid() && Wf(State(input.State(), eater, stack, j.value)) && stack != []
      modifies this, input, j
      ensures input.Valid()
      ensures Matches(Step(State(old(input.State()), eater, stack, old(j.value)), stod), stop, input.State(), eater', stack', j.value)
    {
      var p := stack[|stack| - 1];
      var below := stack[..|stack| - 1];
      buffer := [];
      var ok;
      ghost var s0 := input.State();
      ok, eater' := input.Extract(eater);
      ghost var g := ExtractChar(s0, eater);
      var node := At(j.value, p);
      if node.Object? || eater' == '{' {
        stop, stack', eater' := ReadEntry(j, below, p, eater');
      } else if node.Array? || eater' == '[' {
        stop, stack' := ReadElement(j, below, p, eater');
      } else if eater' == '"' {
        eater' := ReadUntilQuote(eater', false);
        assert buffer == UntilQuote(g.rest, g.c, false).text by {
          assert buffer == [] + UntilQuote(g.rest, g.c, false).text;
        }
        j.value := Put(j.value, p, String(buffer));
        stop, stack' := None, below;
      } else {
        stop, eater' := ReadScalar(j, below, p, eater', stod);
        stack' := below;
      }
    }

    /** `read(j)`: the loop over the stack of slots. It ends as `Parse` says: with the
        status, the stream and the tree that `Run` gives. */
    method Read(j: Json, stod: string -> Option<bv32>) returns (status: Status)
      requires input.Valid()
      modifies this, input, j
      ensures input.Valid()
      ensures var o := Parse(old(input.State()), old(j.value), stod);
        status == o.status && input.State() == o.input && j.value == o.tree
    {
      var eater: char := 0 as char;
      var stack: seq<Path> := [[]];
      ghost var goal := Parse(input.State(), j.value, stod);
      while stack != []
        invariant input.Valid()
        invariant Wf(State(input.State(), eater, stack, j.value))
        invariant Run(State(input.State(), eater, stack, j.value), stod) == goal
        decreases Fuel(input.State()), Pending(State(input.State(), eater, stack, j.value))
      {
        ghost var st := State(input.State(), eater, stack, j.value);
        var stop;
        stop, stack, eater := Turn(j, stack, eater, stod);
        assert Run(st, stod) == AfterTurn(st, stod);
        if stop.Some? {
          return stop.value;
        }
        StepProgress(st, stod);
      }
      status := Completed;
    }
  }
}
