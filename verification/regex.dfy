/** The fragment of JavaScript regular expressions the validators use: a pattern
    anchored at both ends (`^...$`) that is a concatenation of character classes,
    each with a repetition count `{min,}` or `{min,max}`. */
module Regex {
  import opened Types

  /** JavaScript's `\s`: the ECMAScript WhiteSpace and LineTerminator code points. */
  predicate IsJsWhitespace(c: char) {
    var n := c as int;
    || n == 0x09 || n == 0x0A || n == 0x0B || n == 0x0C || n == 0x0D || n == 0x20
    || n == 0xA0 || n == 0x1680 || 0x2000 <= n <= 0x200A
    || n == 0x2028 || n == 0x2029 || n == 0x202F || n == 0x205F || n == 0x3000 || n == 0xFEFF
  }

  /** One member of a bracket class: a range `a-z`, or the escape `\s`. */
  datatype ClassItem = Range(lo: char, hi: char) | Space

  predicate ItemHas(item: ClassItem, c: char) {
    match item
    case Range(lo, hi) => lo <= c <= hi
    case Space => IsJsWhitespace(c)
  }

  /** A bracket class `[...]` is the union of its items. */
  type CharClass = seq<ClassItem>

  predicate ClassHas(cls: CharClass, c: char) {
    exists i | 0 <= i < |cls| :: ItemHas(cls[i], c)
  }

  /** A class with a repetition count; `max == None` is an open bound `{min,}`. */
  datatype Atom = Atom(cls: CharClass, min: nat, max: Option<nat>)

  /** `t` is a run that atom `a` can consume as a whole. */
  predicate Consumes(a: Atom, t: string) {
    && a.min <= |t|
    && (a.max.None? || |t| <= a.max.value)
    && forall i | 0 <= i < |t| :: ClassHas(a.cls, t[i])
  }

  /** `RegExp.prototype.test` for the anchored pattern `^p$`: the string splits into
      consecutive runs, one per atom, each consumed by its atom. */
  predicate FullMatch(p: seq<Atom>, s: string)
    decreases |p|
  {
    if |p| == 0 then |s| == 0
    else exists k | 0 <= k <= |s| :: Consumes(p[0], s[..k]) && FullMatch(p[1..], s[k..])
  }

  /** A one-item class holds exactly what its item holds. */
  lemma SingleItemClass(item: ClassItem, c: char)
    ensures ClassHas([item], c) <==> ItemHas(item, c)
  {
    if ClassHas([item], c) {
      var i :| 0 <= i < 1 && ItemHas([item][i], c);
      assert i == 0;
    }
    if ItemHas(item, c) {
      assert ItemHas([item][0], c);
    }
  }

  /** A one-atom pattern matches exactly the runs its atom consumes. */
  lemma FullMatchOne(a: Atom, s: string)
    ensures FullMatch([a], s) <==> Consumes(a, s)
  {
    var p := [a];
    assert p[1..] == [];
    if Consumes(a, s) {
      assert s[..|s|] == s;
      assert FullMatch(p[1..], s[|s|..]);
    }
    if FullMatch(p, s) {
      var k :| 0 <= k <= |s| && Consumes(a, s[..k]) && FullMatch(p[1..], s[k..]);
      assert s[..k] == s;
    }
  }

  /** A two-atom pattern matches exactly the strings that split into a run of the
      first atom followed by a run of the second. */
  lemma FullMatchTwo(a: Atom, b: Atom, s: string)
    ensures FullMatch([a, b], s) <==>
      exists k | 0 <= k <= |s| :: Consumes(a, s[..k]) && Consumes(b, s[k..])
  {
    var p := [a, b];
    assert p[1..] == [b];
    forall k | 0 <= k <= |s|
      ensures FullMatch(p[1..], s[k..]) <==> Consumes(b, s[k..])
    {
      FullMatchOne(b, s[k..]);
    }
  }
}
