/** The input stream the reader consumes, reduced to what `json::reader::read` uses:
    `in >> c` (skips white space), `in.get(c)`, `in.peek()`, `in.ignore()` and
    `in.eof()`. The characters are a sequence with a read position; `eof` stands for
    the eofbit together with the failbit that `std::istream` sets alongside it. Once it
    is set every further operation fails, and a failed `>>` or `get` leaves its target
    character as it was. */
module Stream {
  import opened JsonValue

  /** `std::isspace` in the C locale: space, tab, newline, vertical tab, form feed and
      carriage return. */
  predicate IsSpace(c: char)
  {
    c == ' ' || '\t' <= c <= '\r'
  }

  /** The state of a stream: its characters, the read position and the end flag. */
  datatype Input = Input(text: string, pos: nat, eof: bool)

  /** The read position is inside the text, and a stream that has hit the end is at
      the end. */
  predicate Placed(s: Input)
  {
    s.pos <= |s.text| && (s.eof ==> s.pos == |s.text|)
  }

  /** The stream's remaining work: what is left to read, or nothing once it has failed. */
  function Fuel(s: Input): nat
    requires Placed(s)
  {
    if s.eof then 0 else |s.text| - s.pos + 1
  }

  /** The first position at or after `k` that does not hold white space. */
  function SkipWs(text: string, k: nat): (r: nat)
    requires k <= |text|
    ensures k <= r <= |text|
    ensures r < |text| ==> !IsSpace(text[r])
    decreases |text| - k
  {
    if k == |text| || !IsSpace(text[k]) then k else SkipWs(text, k + 1)
  }

  /** The result of reading one character: whether it succeeded, the target character
      afterwards and the stream afterwards. */
  datatype Got = Got(ok: bool, c: char, rest: Input)

  /** `in >> c`: skips white space and reads the next character. When only white space
      is left the stream fails at the end and `c` keeps its value. */
  function ExtractChar(s: Input, c: char): (g: Got)
    requires Placed(s)
    ensures Placed(g.rest) && g.rest.text == s.text
    ensures s.eof ==> g == Got(false, c, s)
    ensures g.ok ==> !g.rest.eof && s.pos < g.rest.pos && g.c == s.text[g.rest.pos - 1] && !IsSpace(g.c)
    ensures !g.ok ==> g.c == c && g.rest.eof
    ensures Fuel(g.rest) <= Fuel(s) && (!s.eof ==> Fuel(g.rest) < Fuel(s))
  {
    if s.eof then Got(false, c, s)
    else
      var k := SkipWs(s.text, s.pos);
      if k == |s.text| then Got(false, c, Input(s.text, k, true))
      else Got(true, s.text[k], Input(s.text, k + 1, false))
  }

  /** `s.get(c)`: reads the next character, white space included. */
  function GetChar(s: Input, c: char): (g: Got)
    requires Placed(s)
    ensures Placed(g.rest) && g.rest.text == s.text
    ensures s.eof ==> g == Got(false, c, s)
    ensures g.ok ==> !g.rest.eof && g.rest.pos == s.pos + 1 && g.c == s.text[s.pos]
    ensures !g.ok ==> g.c == c && g.rest.eof
    ensures Fuel(g.rest) <= Fuel(s) && (!s.eof ==> Fuel(g.rest) < Fuel(s))
  {
    if s.eof then Got(false, c, s)
    else if s.pos == |s.text| then Got(false, c, Input(s.text, s.pos, true))
    else Got(true, s.text[s.pos], Input(s.text, s.pos + 1, false))
  }

  /** The characters collected by `while ((in >> c) && c != '"') buffer += c;` (when
      `skipWs`) or by `while (s.get(c) && c != '"') buffer += c;`, the stream after the
      closing quote or at the end, and the last value of `c`. */
  datatype Scanned = Scanned(text: string, rest: Input, eater: char)

  function UntilQuote(s: Input, c: char, skipWs: bool): (r: Scanned)
    requires Placed(s)
    ensures Placed(r.rest) && r.rest.text == s.text && Fuel(r.rest) <= Fuel(s)
    ensures s.eof ==> r == Scanned([], s, c)
    ensures !r.rest.eof ==> r.eater == '"'
    ensures '"' !in r.text
    ensures skipWs ==> forall i :: 0 <= i < |r.text| ==> !IsSpace(r.text[i])
    decreases Fuel(s)
  {
    var g := if skipWs then ExtractChar(s, c) else GetChar(s, c);
    if !g.ok || g.c == '"' then Scanned([], g.rest, g.c)
    else
      var r := UntilQuote(g.rest, g.c, skipWs);
      Scanned([g.c] + r.text, r.rest, r.eater)
  }

  /** One character of the key loop: the character `>>` or `get` reads ends the key when
      it is a quote or the read failed, and is otherwise its first character. */
  lemma UntilQuoteStep(s: Input, c: char, skipWs: bool, g: Got)
    requires Placed(s) && g == (if skipWs then ExtractChar(s, c) else GetChar(s, c))
    ensures Placed(g.rest)
    ensures !g.ok || g.c == '"' ==> UntilQuote(s, c, skipWs) == Scanned([], g.rest, g.c)
    ensures g.ok && g.c != '"' ==>
      UntilQuote(s, c, skipWs) ==
        Scanned([g.c] + UntilQuote(g.rest, g.c, skipWs).text, UntilQuote(g.rest, g.c, skipWs).rest,
                UntilQuote(g.rest, g.c, skipWs).eater)
  {
  }

  /** The characters of `s` that are not white space, in order. */
  function Blankless(s: string): (r: string)
    ensures |r| <= |s|
  {
    if s == [] then [] else (if IsSpace(s[0]) then [] else [s[0]]) + Blankless(s[1..])
  }

  /** What a collecting loop keeps of `seg`: everything after `get`, the non-blank
      characters after `>>`. */
  function Kept(seg: string, skipWs: bool): string
  {
    if skipWs then Blankless(seg) else seg
  }

  /** The position of the first quote at or after `k`, or the end of the text. */
  function FirstQuote(text: string, k: nat): (r: nat)
    requires k <= |text|
    ensures k <= r <= |text| && (r < |text| ==> text[r] == '"')
    ensures forall i :: k <= i < r ==> text[i] != '"'
    decreases |text| - k
  {
    if k == |text| || text[k] == '"' then k else FirstQuote(text, k + 1)
  }

  /** Only white space lies between `k` and the position `SkipWs` gives. */
  lemma {:induction false} SkipWsBlank(text: string, k: nat)
    requires k <= |text|
    ensures forall i :: k <= i < SkipWs(text, k) ==> IsSpace(text[i])
    decreases |text| - k
  {
    if k < |text| && IsSpace(text[k]) {
      SkipWsBlank(text, k + 1);
    }
  }

  /** The first quote is the same from any two starting points with no quote between. */
  lemma FirstQuoteFrom(text: string, a: nat, b: nat)
    requires a <= b <= |text| && forall i :: a <= i < b ==> text[i] != '"'
    ensures FirstQuote(text, a) == FirstQuote(text, b)
  {
  }

  /** Leading white space contributes nothing to the non-blank characters. */
  lemma {:induction false} BlanklessFrom(text: string, a: nat, b: nat, q: nat)
    requires a <= b <= q <= |text| && forall i :: a <= i < b ==> IsSpace(text[i])
    ensures Blankless(text[a..q]) == Blankless(text[b..q])
    decreases b - a
  {
    if a < b {
      assert text[a..q][1..] == text[a + 1..q];
      BlanklessFrom(text, a + 1, b, q);
    }
  }

  /** The key and string loops collect exactly the characters in front of the first
      quote (the non-blank ones, for `>>`), and leave the stream just past that quote, or
      failed at the end of the text when there is none. */
  lemma UntilQuoteContents(s: Input, c: char, skipWs: bool)
    requires Placed(s) && !s.eof
    ensures UntilQuote(s, c, skipWs).text == Kept(s.text[s.pos..FirstQuote(s.text, s.pos)], skipWs)
    ensures FirstQuote(s.text, s.pos) < |s.text| ==>
      UntilQuote(s, c, skipWs).rest == Input(s.text, FirstQuote(s.text, s.pos) + 1, false)
    ensures FirstQuote(s.text, s.pos) == |s.text| ==>
      UntilQuote(s, c, skipWs).rest == Input(s.text, |s.text|, true)
  {
    if skipWs {
      KeyContents(s, c);
    } else {
      StringContents(s, c);
    }
  }

  /** The string loop (`get`): the characters up to the first quote. */
  lemma {:induction false} StringContents(s: Input, c: char)
    requires Placed(s) && !s.eof
    ensures UntilQuote(s, c, false).text == s.text[s.pos..FirstQuote(s.text, s.pos)]
    ensures UntilQuote(s, c, false).rest ==
      if FirstQuote(s.text, s.pos) < |s.text| then Input(s.text, FirstQuote(s.text, s.pos) + 1, false)
      else Input(s.text, |s.text|, true)
    decreases |s.text| - s.pos
  {
    var text, pos := s.text, s.pos;
    var g := GetChar(s, c);
    UntilQuoteStep(s, c, false, g);
    if pos < |text| && text[pos] != '"' {
      var rest := Input(text, pos + 1, false);
      assert g == Got(true, text[pos], rest);
      StringContents(rest, text[pos]);
      StringStep(text, pos, FirstQuote(text, pos));
    }
  }

  /** One non-quote character taken by the string loop. */
  lemma StringStep(text: string, k: nat, q: nat)
    requires k < |text| && text[k] != '"' && q == FirstQuote(text, k)
    ensures FirstQuote(text, k + 1) == q
    ensures text[k..q] == [text[k]] + text[k + 1..q]
  {
    FirstQuoteFrom(text, k, k + 1);
  }

  /** The key loop (`>>`): the non-blank characters up to the first quote. */
  lemma {:induction false} KeyContents(s: Input, c: char)
    requires Placed(s) && !s.eof
    ensures UntilQuote(s, c, true).text == Blankless(s.text[s.pos..FirstQuote(s.text, s.pos)])
    ensures UntilQuote(s, c, true).rest ==
      if FirstQuote(s.text, s.pos) < |s.text| then Input(s.text, FirstQuote(s.text, s.pos) + 1, false)
      else Input(s.text, |s.text|, true)
    decreases |s.text| - s.pos
  {
    var text, pos := s.text, s.pos;
    var q := FirstQuote(text, pos);
    var k := SkipWs(text, pos);
    SkipWsBlank(text, pos);
    FirstQuoteFrom(text, pos, k);
    BlanklessFrom(text, pos, k, q);
    var g := ExtractChar(s, c);
    UntilQuoteStep(s, c, true, g);
    if k == |text| {
      assert text[k..q] == [];
    } else if text[k] == '"' {
      assert text[k..q] == [];
    } else {
      KeyStep(text, k, q, g);
      KeyContents(g.rest, g.c);
    }
  }

  /** One non-blank, non-quote character taken by the key loop. */
  lemma KeyStep(text: string, k: nat, q: nat, g: Got)
    requires k < |text| && !IsSpace(text[k]) && text[k] != '"' && q == FirstQuote(text, k)
    requires g.rest == Input(text, k + 1, false) && g.c == text[k]
    ensures FirstQuote(g.rest.text, g.rest.pos) == q
    ensures Blankless(text[k..q]) == [g.c] + Blankless(text[g.rest.pos..q])
  {
    FirstQuoteFrom(text, k, k + 1);
    assert text[k..q][1..] == text[k + 1..q];
  }

  /** Stream state class: the `std::istream&` the reader holds. */
  class InStream {
    const text: string
    var pos: nat
    var eof: bool

    ghost predicate Valid()
      reads this
    {
      Placed(State())
    }

    function State(): Input
      reads this
    {
      Input(text, pos, eof)
    }

    constructor (text: string)
      ensures Valid() && State() == Input(text, 0, false)
    {
      this.text := text;
      pos := 0;
      eof := false;
    }

    /** `in >> c`. */
    method Extract(c: char) returns (ok: bool, c': char)
      requires Valid()
      modifies this
      ensures Valid()
      ensures Got(ok, c', State()) == ExtractChar(old(State()), c)
    {
      if eof {
        return false, c;
      }
      while pos < |text| && IsSpace(text[pos])
        invariant !eof && old(pos) <= pos <= |text|
        invariant SkipWs(text, pos) == SkipWs(text, old(pos))
        decreases |text| - pos
      {
        pos := pos + 1;
      }
      if pos == |text| {
        eof := true;
        return false, c;
      }
      ok, c' := true, text[pos];
      pos := pos + 1;
    }

    /** `s.get(c)`. */
    method Get(c: char) returns (ok: bool, c': char)
      requires Valid()
      modifies this
      ensures Valid()
      ensures Got(ok, c', State()) == GetChar(old(State()), c)
    {
      if eof {
        return false, c;
      }
      if pos == |text| {
        eof := true;
        return false, c;
      }
      ok, c' := true, text[pos];
      pos := pos + 1;
    }

    /** `s.peek()`: the next character without consuming it, or `None` for EOF. Looking
        past the last character sets the end flag. */
    method Peek() returns (r: Option<char>)
      requires Valid()
      modifies this
      ensures Valid() && pos == old(pos)
      ensures r.None? <==> old(eof) || old(pos) == |text|
      ensures r.Some? ==> r.value == text[pos] && eof == old(eof)
      ensures r.None? ==> eof && pos == |text|
    {
      if eof {
        return None;
      }
      if pos == |text| {
        eof := true;
        return None;
      }
      r := Some(text[pos]);
    }

    /** `s.ignore()`: skips one character. */
    method Ignore()
      requires Valid()
      modifies this
      ensures Valid()
      ensures !old(eof) && old(pos) < |text| ==> pos == old(pos) + 1 && eof == old(eof)
      ensures old(eof) || old(pos) == |text| ==> pos == |text| && eof
    {
      if eof {
        return;
      }
      if pos == |text| {
        eof := true;
        return;
      }
      pos := pos + 1;
    }
  }
}
