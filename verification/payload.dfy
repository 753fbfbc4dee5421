/**
 * The values the course API puts into its responses: JSON-shaped data,
 * Python's notion of a "truthy" value, and comma-separated query values.
 */
module Payload {
  import opened Wrappers

  /** A JSON-ready value; `JObj` is a Python dict, `JList` a Python list. */
  datatype Json =
    | JNull
    | JBool(b: bool)
    | JInt(i: int)
    | JStr(s: string)
    | JList(items: seq<Json>)
    | JObj(fields: map<string, Json>)

  /** A serialized record: a dict from field name to value. */
  type Record = map<string, Json>

  /** Python truthiness of a value (`if value:`). */
  predicate Truthy(j: Json)
  {
    match j
    case JNull => false
    case JBool(b) => b
    case JInt(i) => i != 0
    case JStr(s) => s != ""
    case JList(xs) => xs != []
    case JObj(m) => m != map[]
  }

  /** `if param:` on an optional query parameter: present and not the empty string. */
  predicate Given(param: Option<string>)
  {
    param.Some? && param.value != ""
  }

  /** Each record of `rs` as a JSON object, in order. */
  function Objects(rs: seq<Record>): (js: seq<Json>)
    ensures |js| == |rs|
    ensures forall i :: 0 <= i < |rs| ==> js[i] == JObj(rs[i])
  {
    seq(|rs|, i requires 0 <= i < |rs| => JObj(rs[i]))
  }

  /** Glue `parts` together with `sep` between neighbours: Python's `sep.join(parts)`. */
  function Join(parts: seq<string>, sep: char): string
    requires |parts| >= 1
    decreases |parts|
  {
    if |parts| == 1 then parts[0] else parts[0] + [sep] + Join(parts[1..], sep)
  }

  /**
   * Python's `s.split(sep)` for a one-character separator: the maximal
   * separator-free pieces of `s`, empty pieces included, so that joining
   * them back with `sep` gives `s` again.
   */
  function Split(s: string, sep: char): (parts: seq<string>)
    ensures |parts| >= 1
    ensures forall i :: 0 <= i < |parts| ==> sep !in parts[i]
    ensures Join(parts, sep) == s
    decreases |s|
  {
    if s == [] then [""]
    else
      var rest := Split(s[1..], sep);
      if s[0] == sep then
        assert ([""] + rest)[1..] == rest;
        [""] + rest
      else
        var parts := [[s[0]] + rest[0]] + rest[1..];
        assert parts[1..] == rest[1..];
        assert s == [s[0]] + s[1..];
        parts
  }

  /** Splitting a separator-free piece gives that piece alone. */
  lemma {:induction false} SplitPiece(w: string, sep: char)
    requires sep !in w
    ensures Split(w, sep) == [w]
    decreases |w|
  {
    if w != [] {
      SplitPiece(w[1..], sep);
      assert [w[0]] + w[1..] == w;
    }
  }

  /** Splitting `w + sep + x` splits off `w` and then splits `x`. */
  lemma {:induction false} SplitAfterPiece(w: string, sep: char, x: string)
    requires sep !in w
    ensures Split(w + [sep] + x, sep) == [w] + Split(x, sep)
    decreases |w|
  {
    var s := w + [sep] + x;
    if w == [] {
      assert s[0] == sep && s[1..] == x;
    } else {
      assert s[0] == w[0] && s[1..] == w[1..] + [sep] + x;
      SplitAfterPiece(w[1..], sep, x);
      assert [w[0]] + w[1..] == w;
    }
  }

  /** The inverse round trip: splitting a join of separator-free pieces gives the pieces back. */
  lemma {:induction false} SplitJoin(parts: seq<string>, sep: char)
    requires |parts| >= 1
    requires forall i :: 0 <= i < |parts| ==> sep !in parts[i]
    ensures Split(Join(parts, sep), sep) == parts
    decreases |parts|
  {
    if |parts| == 1 {
      SplitPiece(parts[0], sep);
    } else {
      SplitJoin(parts[1..], sep);
      SplitAfterPiece(parts[0], sep, Join(parts[1..], sep));
      assert [parts[0]] + parts[1..] == parts;
    }
  }
}
