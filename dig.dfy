/** `_dig(obj, path, default)`: a lookup along a dotted path in which each
    segment is taken as an attribute first and as a dict key second, giving
    `default` as soon as a step cannot be taken. */
module Dig {
  import opened PyValues

  /** `s.split(sep)`: never empty, empty pieces kept ("a..b" has three). */
  function Split(s: string, sep: char): (parts: seq<string>)
    ensures |parts| >= 1
    ensures forall k :: 0 <= k < |parts| ==> sep !in parts[k]
    decreases |s|
  {
    if s == [] then [""]
    else if s[0] == sep then [""] + Split(s[1..], sep)
    else
      var rest := Split(s[1..], sep);
      [[s[0]] + rest[0]] + rest[1..]
  }

  /** `sep.join(parts)`. */
  function Join(parts: seq<string>, sep: char): string
    requires |parts| >= 1
    decreases |parts|
  {
    if |parts| == 1 then parts[0] else parts[0] + [sep] + Join(parts[1..], sep)
  }

  /** Splitting at a separator splits the two sides independently. */
  lemma {:induction false} SplitAppend(a: string, b: string, sep: char)
    ensures Split(a + [sep] + b, sep) == Split(a, sep) + Split(b, sep)
    decreases |a|
  {
    if a == [] {
      assert a + [sep] + b == [sep] + b;
      assert ([sep] + b)[1..] == b;
    } else {
      assert (a + [sep] + b)[0] == a[0];
      assert (a + [sep] + b)[1..] == a[1..] + [sep] + b;
      SplitAppend(a[1..], b, sep);
    }
  }

  /** A string without the separator is one piece. */
  lemma {:induction false} SplitWithoutSeparator(s: string, sep: char)
    requires sep !in s
    ensures Split(s, sep) == [s]
    decreases |s|
  {
    if s != [] {
      assert s[0] != sep;
      SplitWithoutSeparator(s[1..], sep);
      assert [s[0]] + s[1..] == s;
    }
  }

  /** Joining the pieces gives the original string back. */
  lemma {:induction false} JoinSplit(s: string, sep: char)
    ensures Join(Split(s, sep), sep) == s
    decreases |s|
  {
    if s != [] {
      JoinSplit(s[1..], sep);
      var rest := Split(s[1..], sep);
      if s[0] == sep {
        assert ([""] + rest)[1..] == rest;
      } else {
        var parts := [[s[0]] + rest[0]] + rest[1..];
        if |rest| > 1 {
          assert parts[1..] == rest[1..];
          assert Join(rest, sep) == rest[0] + [sep] + Join(rest[1..], sep);
        }
        assert [s[0]] + s[1..] == s;
      }
    }
  }

  /** Splitting a join of separator-free pieces gives the pieces back. */
  lemma {:induction false} SplitJoin(parts: seq<string>, sep: char)
    requires |parts| >= 1
    requires forall k :: 0 <= k < |parts| ==> sep !in parts[k]
    ensures Split(Join(parts, sep), sep) == parts
    decreases |parts|
  {
    SplitWithoutSeparator(parts[0], sep);
    if |parts| > 1 {
      SplitJoin(parts[1..], sep);
      SplitAppend(parts[0], Join(parts[1..], sep), sep);
      assert [parts[0]] + parts[1..] == parts;
    }
  }

  /** One step of the walk: None stops it; an attribute is preferred to a
      dict key of the same name; anything else stops it. */
  function Step(cur: PyValue, seg: string): Option<PyValue> {
    if cur.PyNone? then None
    else if (cur.PyDict? || cur.PyObject?) && seg in cur.attrs then Some(cur.attrs[seg])
    else if cur.PyDict? && seg in cur.items then Some(cur.items[seg])
    else None
  }

  /** The value reached by taking every segment in turn, if every step can be taken. */
  function Resolve(cur: PyValue, segs: seq<string>): Option<PyValue>
    decreases |segs|
  {
    if segs == [] then Some(cur)
    else
      match Step(cur, segs[0])
      case None => None
      case Some(next) => Resolve(next, segs[1..])
  }

  /** What `_dig(obj, path, default)` returns. */
  function DigSpec(obj: PyValue, path: string, default: PyValue): PyValue {
    match Resolve(obj, Split(path, '.'))
    case Some(v) => v
    case None => default
  }

  /** The walk itself, one segment per iteration. */
  method Dig(obj: PyValue, path: string, default: PyValue) returns (r: PyValue)
    ensures r == DigSpec(obj, path, default)
  {
    var segs := Split(path, '.');
    var cur := obj;
    var i := 0;
    while i < |segs|
      invariant 0 <= i <= |segs|
      invariant Resolve(obj, segs) == Resolve(cur, segs[i..])
    {
      assert segs[i..][0] == segs[i] && segs[i..][1..] == segs[i + 1..];
      if cur.PyNone? {
        return default;
      }
      if (cur.PyDict? || cur.PyObject?) && segs[i] in cur.attrs {
        cur := cur.attrs[segs[i]];
      } else if cur.PyDict? && segs[i] in cur.items {
        cur := cur.items[segs[i]];
      } else {
        return default;
      }
      i := i + 1;
    }
    return cur;
  }

  /** Walking a concatenation is walking the first part, then the second. */
  lemma {:induction false} ResolveAppend(v: PyValue, a: seq<string>, b: seq<string>)
    ensures Resolve(v, a + b) == match Resolve(v, a) case None => None case Some(m) => Resolve(m, b)
    decreases |a|
  {
    if a == [] {
      assert a + b == b;
    } else {
      assert (a + b)[0] == a[0] && (a + b)[1..] == a[1..] + b;
      match Step(v, a[0])
      case None =>
      case Some(next) => ResolveAppend(next, a[1..], b);
    }
  }

  /** The walk gives `default` as soon as it meets None or a segment that is
      neither an attribute nor a dict key, whatever the later segments are. */
  lemma DigStopsAtFirstMiss(obj: PyValue, path: string, default: PyValue, k: nat, reached: PyValue)
    requires k < |Split(path, '.')|
    requires Resolve(obj, Split(path, '.')[..k]) == Some(reached)
    requires reached.PyNone? || Step(reached, Split(path, '.')[k]) == None
    ensures DigSpec(obj, path, default) == default
  {
    var segs := Split(path, '.');
    assert segs == segs[..k] + segs[k..];
    ResolveAppend(obj, segs[..k], segs[k..]);
    assert segs[k..][0] == segs[k];
  }

  /** Walking along a trace of values, each reached from the one before by
      one step, ends at the last value of the trace. */
  lemma {:induction false} ResolveTrace(v: PyValue, segs: seq<string>, vals: seq<PyValue>)
    requires |vals| == |segs| + 1 && vals[0] == v
    requires forall i :: 0 <= i < |segs| ==> Step(vals[i], segs[i]) == Some(vals[i + 1])
    ensures Resolve(v, segs) == Some(vals[|segs|])
    decreases |segs|
  {
    if segs != [] {
      assert Step(vals[0], segs[0]) == Some(vals[1]);
      forall i | 0 <= i < |segs[1..]|
        ensures Step(vals[1..][i], segs[1..][i]) == Some(vals[1..][i + 1])
      {
        assert Step(vals[i + 1], segs[i + 1]) == Some(vals[i + 2]);
      }
      ResolveTrace(vals[1], segs[1..], vals[1..]);
    }
  }

  /** When every segment can be taken — each value of the trace `vals` is
      reached from the one before by one step — the walk gives the last value
      reached, whatever the default (the None check is made before each step
      only, so that value may be None). */
  lemma DigReachesEnd(obj: PyValue, path: string, default: PyValue, vals: seq<PyValue>)
    requires |vals| == |Split(path, '.')| + 1 && vals[0] == obj
    requires forall i :: 0 <= i < |Split(path, '.')| ==> Step(vals[i], Split(path, '.')[i]) == Some(vals[i + 1])
    ensures DigSpec(obj, path, default) == vals[|vals| - 1]
  {
    ResolveTrace(obj, Split(path, '.'), vals);
  }

  /** A final value of None is returned as it is, not replaced by the default. */
  lemma DigMayReturnNone(obj: PyValue, seg: string, default: PyValue)
    requires (obj.PyDict? || obj.PyObject?) && seg in obj.attrs && obj.attrs[seg] == PyNone
    requires '.' !in seg
    ensures DigSpec(obj, seg, default) == PyNone
  {
    SplitWithoutSeparator(seg, '.');
    DigReachesEnd(obj, seg, default, [obj, PyNone]);
  }

  /** A path made of two dot-free segments splits into exactly those two. */
  lemma TwoSegments(a: string, b: string)
    requires '.' !in a && '.' !in b
    ensures Split(a + ['.'] + b, '.') == [a, b]
  {
    SplitAppend(a, b, '.');
    SplitWithoutSeparator(a, '.');
    SplitWithoutSeparator(b, '.');
  }

  /** `_dig(obj, "p.q")` is `_dig(_dig(obj, "p"), "q")` when the default is None:
      the nested path used for the sender id is the nested lookup. */
  lemma DigComposes(obj: PyValue, p: string, q: string)
    ensures DigSpec(obj, p + "." + q, PyNone) == DigSpec(DigSpec(obj, p, PyNone), q, PyNone)
  {
    SplitAppend(p, q, '.');
    ResolveAppend(obj, Split(p, '.'), Split(q, '.'));
  }

  /** On a dict that has both an attribute and a key named `seg`, the
      attribute wins. */
  lemma DigPrefersAttribute(d: PyValue, seg: string, default: PyValue)
    requires d.PyDict? && seg in d.attrs && seg in d.items
    requires '.' !in seg
    ensures DigSpec(d, seg, default) == d.attrs[seg]
  {
    SplitWithoutSeparator(seg, '.');
    assert Step(d, seg) == Some(d.attrs[seg]);
    assert Resolve(d, [seg]) == Resolve(d.attrs[seg], []);
  }
}
