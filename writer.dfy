/** `json::write(out, lvl)` (json.hpp:170-235): the text a value is written as, given
    the indentation level of the Object it appears in. `Render` says what the text is;
    `Write` produces it by appending to `out` with the loops of the source. */
module Writer {
  import opened JsonValue
  import opened Numerals
  import opened KeyOrder

  /** `lvl` tab characters: the `tabs` string of the Object case. */
  function Tabs(lvl: nat): (r: string)
    ensures |r| == lvl && forall i :: 0 <= i < lvl ==> r[i] == '\t'
  {
    seq(lvl, _ => '\t')
  }

  /** The order in which the entries of an Object are written. */
  function KeysOf(v: Value): (ks: seq<string>)
    requires v.Object?
    ensures Distinct(ks) && |ks| == |v.fields|
    ensures forall k :: k in ks <==> k in v.fields
  {
    Enumerate(v.fields.Keys)
  }

  /** The text of `v` at indentation level `lvl`. How a `float` is printed is left to
      `floatText`. */
  function Render(v: Value, lvl: nat, floatText: bv32 -> string): string
    decreases v, 1
  {
    match v
    case Null => "null"
    case Boolean(b) => if b then "true" else "false"
    case Decimal(i) => IntText(i)
    case Float(f) => floatText(f)
    case String(s) => "\"" + s + "\""
    case Array(_) => "[" + ElementsFrom(v, 0, lvl, floatText) + "]"
    case Object(_) =>
      "{\n" + Tabs(lvl) + EntriesFrom(v, KeysOf(v), 0, lvl, floatText) + "\n" + Tabs(lvl) + "}"
  }

  /** The elements of an Array from index `i` on, each at the array's own level and
      separated by a comma. */
  function ElementsFrom(v: Value, i: nat, lvl: nat, floatText: bv32 -> string): string
    requires v.Array?
    decreases v, 0, |v.elems| - i
  {
    if i >= |v.elems| then ""
    else
      Render(v.elems[i], lvl, floatText) +
      (if i + 1 < |v.elems| then "," + ElementsFrom(v, i + 1, lvl, floatText) else "")
  }

  /** One entry of an Object: a tab, the quoted key, a colon and the value one level
      deeper. */
  function Entry(v: Value, k: string, lvl: nat, floatText: bv32 -> string): string
    requires v.Object? && k in v.fields
    decreases v, 0, 0
  {
    EntryHead(k) + Render(v.fields[k], lvl + 1, floatText)
  }

  /** What precedes the value in an entry: a tab, the quoted key and a colon. */
  function EntryHead(k: string): string
  {
    "\t\"" + k + "\":"
  }

  /** The entries of an Object for the keys `ks[i..]`, separated by a comma, a newline
      and `lvl` tabs. */
  function EntriesFrom(v: Value, ks: seq<string>, i: nat, lvl: nat, floatText: bv32 -> string): string
    requires v.Object? && forall k :: k in ks ==> k in v.fields
    decreases v, 0, |ks| - i + 1
  {
    if i >= |ks| then ""
    else
      Entry(v, ks[i], lvl, floatText) +
      (if i + 1 < |ks| then ",\n" + Tabs(lvl) + EntriesFrom(v, ks, i + 1, lvl, floatText) else "")
  }

  /** `json::write`: appends the text of `v` to `out`. */
  method Write(v: Value, lvl: nat, floatText: bv32 -> string, out: string) returns (r: string)
    ensures r == out + Render(v, lvl, floatText)
    decreases v, 1
  {
    match v
    case Null =>
      r := out + "null";
    case Array(_) =>
      r := WriteElements(v, lvl, floatText, out + "[");
      r := r + "]";
    case Object(_) =>
      var tabs := Tabs(lvl);
      r := WriteEntries(v, lvl, floatText, out + "{" + "\n" + tabs);
      r := r + "\n" + tabs + "}";
    case String(s) =>
      r := out + "\"" + s + "\"";
    case Boolean(b) =>
      r := out + (if b then "true" else "false");
    case Decimal(i) =>
      r := out + IntText(i);
    case Float(f) =>
      r := out + floatText(f);
  }

  /** The loop of the Array case: each element, and a comma before every element but
      the first. */
  method WriteElements(v: Value, lvl: nat, floatText: bv32 -> string, out: string) returns (r: string)
    requires v.Array?
    ensures r == out + ElementsFrom(v, 0, lvl, floatText)
    decreases v, 0
  {
    var es := v.elems;
    r := out;
    if |es| > 0 {
      var i := 0;
      while true
        invariant 0 <= i < |es|
        invariant r + ElementsFrom(v, i, lvl, floatText) == out + ElementsFrom(v, 0, lvl, floatText)
        decreases |es| - i
      {
        ElementsSplit(v, i, lvl, floatText);
        r := Write(es[i], lvl, floatText, r);
        i := i + 1;
        if i == |es| {
          break;
        }
        r := r + ",";
      }
    }
  }

  /** The loop of the Object case: each entry, and a comma, a newline and the tabs
      between entries. */
  method WriteEntries(v: Value, lvl: nat, floatText: bv32 -> string, out: string) returns (r: string)
    requires v.Object?
    ensures r == out + EntriesFrom(v, KeysOf(v), 0, lvl, floatText)
    decreases v, 0
  {
    var ks := KeysOf(v);
    var tabs := Tabs(lvl);
    r := out;
    if |ks| > 0 {
      var i := 0;
      while true
        invariant 0 <= i < |ks|
        invariant r + EntriesFrom(v, ks, i, lvl, floatText) == out + EntriesFrom(v, ks, 0, lvl, floatText)
        decreases |ks| - i
      {
        ghost var before := r;
        r := WriteEntry(v, ks[i], lvl, floatText, r);
        EntriesSplit(v, ks, i, lvl, floatText);
        i := i + 1;
        if i < |ks| {
          r := r + ",\n" + tabs;
          Rebracket(before, Entry(v, ks[i - 1], lvl, floatText), ",\n", tabs, EntriesFrom(v, ks, i, lvl, floatText));
        } else {
          break;
        }
      }
    }
  }

  lemma Rebracket(a: string, b: string, c: string, d: string, e: string)
    ensures a + (b + (c + d + e)) == a + b + c + d + e
  {
  }

  /** One turn of that loop: the tab, the quoted key, the colon and the value. */
  method WriteEntry(v: Value, k: string, lvl: nat, floatText: bv32 -> string, out: string) returns (r: string)
    requires v.Object? && k in v.fields
    ensures r == out + Entry(v, k, lvl, floatText)
    decreases v, 0, 0
  {
    r := out + EntryHead(k);
    r := Write(v.fields[k], lvl + 1, floatText, r);
  }

  /** The first character of the text says which kind of value was written: a quote only
      for a String, a bracket only for an Array, a brace only for an Object, and for
      the other kinds of value a letter or a digit or a minus sign. */
  lemma RenderStart(v: Value, lvl: nat, floatText: bv32 -> string)
    requires !v.Float?
    ensures var r := Render(v, lvl, floatText);
      |r| > 0 &&
      (r[0] == '"' <==> v.String?) &&
      (r[0] == '[' <==> v.Array?) &&
      (r[0] == '{' <==> v.Object?) &&
      (v.Null? ==> r[0] == 'n') &&
      (v.Boolean? ==> r[0] == (if v.b then 't' else 'f')) &&
      (v.Decimal? ==> IsDigit(r[0]) || r[0] == '-')
  {
    if v.Decimal? {
      var t := IntText(v.i);
      if v.i >= 0 {
        assert IsDigit(NatText(v.i)[0]);
      }
    }
  }

  /** The elements of a non-empty Array are the first element's text, then for each
      further element a comma and its text: the last element is not followed by a
      comma. */
  lemma {:induction false} ElementsSplit(v: Value, i: nat, lvl: nat, floatText: bv32 -> string)
    requires v.Array? && i < |v.elems|
    ensures ElementsFrom(v, i, lvl, floatText) ==
      Render(v.elems[i], lvl, floatText) +
      (if i + 1 < |v.elems| then "," + ElementsFrom(v, i + 1, lvl, floatText) else "")
  {
  }

  lemma {:induction false} EntriesSplit(v: Value, ks: seq<string>, i: nat, lvl: nat, floatText: bv32 -> string)
    requires v.Object? && (forall k :: k in ks ==> k in v.fields) && i < |ks|
    ensures EntriesFrom(v, ks, i, lvl, floatText) ==
      Entry(v, ks[i], lvl, floatText) +
      (if i + 1 < |ks| then ",\n" + Tabs(lvl) + EntriesFrom(v, ks, i + 1, lvl, floatText) else "")
  {
  }

  /** Object text: brace, newline and tabs, the entries, then newline, tabs and brace;
      the text of an Object with no entries is the two braces on separate lines. */
  lemma EmptyObjectText(lvl: nat, floatText: bv32 -> string)
    ensures Render(Object(map[]), lvl, floatText) == "{\n" + Tabs(lvl) + "\n" + Tabs(lvl) + "}"
  {
    assert KeysOf(Object(map[])) == [];
  }
}
