/** Slots of a json tree. The reader's stack holds `json*` pointers into the tree it is
    filling; here a slot is the path of keys and indices that leads to it from the root. */
module Paths {
  import opened JsonValue

  /** One step down: an Object entry or an Array element. */
  datatype Selector = Key(key: string) | Index(index: nat)

  type Path = seq<Selector>

  /** Every step of `p` lands on an entry or element that exists. */
  predicate Resolves(t: Value, p: Path)
    decreases p
  {
    p == [] ||
    match p[0]
    case Key(k) => t.Object? && k in t.fields && Resolves(t.fields[k], p[1..])
    case Index(i) => t.Array? && i < |t.elems| && Resolves(t.elems[i], p[1..])
  }

  /** The slot at the end of `p`. */
  function At(t: Value, p: Path): Value
    requires Resolves(t, p)
    decreases p
  {
    if p == [] then t
    else match p[0]
      case Key(k) => At(t.fields[k], p[1..])
      case Index(i) => At(t.elems[i], p[1..])
  }

  /** The tree with the slot at the end of `p` replaced by `x`; the slot is still there
      afterwards and holds `x`. */
  function Put(t: Value, p: Path, x: Value): (r: Value)
    requires Resolves(t, p)
    ensures Resolves(r, p) && At(r, p) == x
    decreases p
  {
    if p == [] then x
    else match p[0]
      case Key(k) => Object(t.fields[k := Put(t.fields[k], p[1..], x)])
      case Index(i) => Array(t.elems[i := Put(t.elems[i], p[1..], x)])
  }

  /** An ancestor of a slot that exists exists too. */
  lemma {:induction false} PrefixResolves(t: Value, p: Path, n: nat)
    requires Resolves(t, p) && n <= |p|
    ensures Resolves(t, p[..n])
    decreases p
  {
    if n > 0 {
      assert p[..n][0] == p[0] && p[..n][1..] == p[1..][..n - 1];
      match p[0]
      case Key(k) => PrefixResolves(t.fields[k], p[1..], n - 1);
      case Index(i) => PrefixResolves(t.elems[i], p[1..], n - 1);
    }
  }

  /** Putting back what a slot holds gives the same tree. */
  lemma {:induction false} PutAt(t: Value, p: Path)
    requires Resolves(t, p)
    ensures Put(t, p, At(t, p)) == t
    decreases p
  {
    if p != [] {
      match p[0]
      case Key(k) => PutAt(t.fields[k], p[1..]);
      case Index(i) => PutAt(t.elems[i], p[1..]);
    }
  }

  /** Filling the slot one step below `p` replaces, at `p`, the container by the same
      container with that one entry or element replaced. */
  lemma {:induction false} PutBelow(t: Value, p: Path, s: Selector, x: Value)
    requires Resolves(t, p + [s])
    ensures Resolves(t, p) && Resolves(At(t, p), [s])
    ensures Put(t, p + [s], x) == Put(t, p, Put(At(t, p), [s], x))
    decreases p
  {
    if p == [] {
      assert [] + [s] == [s];
    } else {
      assert (p + [s])[0] == p[0] && (p + [s])[1..] == p[1..] + [s];
      match p[0]
      case Key(k) => PutBelow(t.fields[k], p[1..], s, x);
      case Index(i) => PutBelow(t.elems[i], p[1..], s, x);
    }
  }

  /** The slot one step below `p` is the entry or element of the container at `p`. */
  lemma {:induction false} AtBelow(t: Value, p: Path, s: Selector)
    requires Resolves(t, p + [s])
    ensures Resolves(t, p) && Resolves(At(t, p), [s])
    ensures At(t, p + [s]) == At(At(t, p), [s])
    decreases p
  {
    if p == [] {
      assert [] + [s] == [s];
    } else {
      assert (p + [s])[0] == p[0] && (p + [s])[1..] == p[1..] + [s];
      match p[0]
      case Key(k) => AtBelow(t.fields[k], p[1..], s);
      case Index(i) => AtBelow(t.elems[i], p[1..], s);
    }
  }

  /** A step below a container that exists resolves once the container is put in place. */
  lemma {:induction false} ResolvesBelow(t: Value, p: Path, c: Value, s: Selector)
    requires Resolves(t, p) && Resolves(c, [s])
    ensures Resolves(Put(t, p, c), p + [s]) && At(Put(t, p, c), p + [s]) == At(c, [s])
    decreases p
  {
    if p == [] {
      assert [] + [s] == [s];
    } else {
      assert (p + [s])[0] == p[0] && (p + [s])[1..] == p[1..] + [s];
      match p[0]
      case Key(k) => ResolvesBelow(t.fields[k], p[1..], c, s);
      case Index(i) => ResolvesBelow(t.elems[i], p[1..], c, s);
    }
  }

  /** A second put at the same slot overrides the first. */
  lemma {:induction false} PutPut(t: Value, p: Path, x: Value, y: Value)
    requires Resolves(t, p)
    ensures Put(Put(t, p, x), p, y) == Put(t, p, y)
    decreases p
  {
    if p != [] {
      match p[0]
      case Key(k) => PutPut(t.fields[k], p[1..], x, y);
      case Index(i) => PutPut(t.elems[i], p[1..], x, y);
    }
  }

  /** Writing through a slot changes no slot off its path: a slot that is neither an
      ancestor nor a descendant of `p` still exists and holds what it held. */
  lemma {:induction false} PutElsewhere(t: Value, p: Path, x: Value, q: Path)
    requires Resolves(t, p) && Resolves(t, q) && !(p <= q) && !(q <= p)
    ensures Resolves(Put(t, p, x), q) && At(Put(t, p, x), q) == At(t, q)
    decreases p
  {
    var r := Put(t, p, x);
    match p[0]
    case Key(k) =>
      if q[0] == p[0] {
        assert !(p[1..] <= q[1..]) && !(q[1..] <= p[1..]);
        PutElsewhere(t.fields[k], p[1..], x, q[1..]);
      } else {
        assert r.fields[q[0].key] == t.fields[q[0].key];
      }
    case Index(i) =>
      if q[0] == p[0] {
        assert !(p[1..] <= q[1..]) && !(q[1..] <= p[1..]);
        PutElsewhere(t.elems[i], p[1..], x, q[1..]);
      } else {
        assert r.elems[q[0].index] == t.elems[q[0].index];
      }
  }
}
