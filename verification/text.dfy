/**
 * String operations of the JavaScript standard library used by the hooks,
 * on strings as sequences of characters: `split` with a one-character
 * separator, `startsWith`, and `replace(/^prefix/, '')`.
 */
module Text {

  /** `s.split(sep)` for a one-character separator: the maximal runs between
      separators, in order, empty runs included; `"".split(sep)` is `[""]`.
      There is exactly one field precisely when the separator does not occur. */
  function Split(s: string, sep: char): (fields: seq<string>)
    ensures |fields| >= 1
    ensures |fields| == 1 <==> sep !in s
    decreases |s|
  {
    if s == [] then [[]]
    else
      var rest := Split(s[1..], sep);
      assert s == [s[0]] + s[1..];
      if s[0] == sep then [[]] + rest
      else [[s[0]] + rest[0]] + rest[1..]
  }

  /** `fields.join(sep)`: the inverse of `Split`. */
  function Join(fields: seq<string>, sep: char): string
    requires |fields| >= 1
    decreases |fields|
  {
    if |fields| == 1 then fields[0]
    else fields[0] + [sep] + Join(fields[1..], sep)
  }

  /** One step of `Split`: the first character either ends the first field
      or joins it. */
  lemma SplitCons(c: char, t: string, sep: char)
    ensures Split([c] + t, sep) ==
            if c == sep then [[]] + Split(t, sep)
            else [[c] + Split(t, sep)[0]] + Split(t, sep)[1..]
  {
    assert ([c] + t)[1..] == t;
  }

  /** One step of `Join`. */
  lemma JoinCons(f: string, fields: seq<string>, sep: char)
    requires |fields| >= 1
    ensures Join([f] + fields, sep) == f + [sep] + Join(fields, sep)
  {
    assert ([f] + fields)[1..] == fields;
  }

  /** Joining the fields of a split with the same separator gives back the string. */
  lemma {:induction false} JoinSplit(s: string, sep: char)
    ensures Join(Split(s, sep), sep) == s
    decreases |s|
  {
    if s != [] {
      var c, t := s[0], s[1..];
      assert s == [c] + t;
      SplitCons(c, t, sep);
      var rest := Split(t, sep);
      JoinSplit(t, sep);
      if c == sep {
        JoinCons([], rest, sep);
      } else if |rest| > 1 {
        assert rest == [rest[0]] + rest[1..];
        JoinCons(rest[0], rest[1..], sep);
        JoinCons([c] + rest[0], rest[1..], sep);
      }
    }
  }

  /** No field of a split contains the separator. */
  lemma {:induction false} SplitFieldsExcludeSeparator(s: string, sep: char)
    ensures forall i :: 0 <= i < |Split(s, sep)| ==> sep !in Split(s, sep)[i]
    decreases |s|
  {
    if s != [] {
      SplitFieldsExcludeSeparator(s[1..], sep);
    }
  }

  /** A string without the separator is its own single field. */
  lemma {:induction false} SplitWithoutSeparator(w: string, sep: char)
    requires sep !in w
    ensures Split(w, sep) == [w]
    decreases |w|
  {
    if w != [] {
      assert w == [w[0]] + w[1..];
      SplitWithoutSeparator(w[1..], sep);
    }
  }

  /** The first field ends at the first separator, and splitting resumes after it. */
  lemma {:induction false} SplitAtFirstSeparator(w: string, rest: string, sep: char)
    requires sep !in w
    ensures Split(w + [sep] + rest, sep) == [w] + Split(rest, sep)
    decreases |w|
  {
    if w == [] {
      assert w + [sep] + rest == [sep] + rest;
      SplitCons(sep, rest, sep);
    } else {
      var tail := w[1..] + [sep] + rest;
      assert w + [sep] + rest == [w[0]] + tail;
      SplitCons(w[0], tail, sep);
      SplitAtFirstSeparator(w[1..], rest, sep);
      assert w == [w[0]] + w[1..];
    }
  }

  /** A word followed by nothing or by a separator is the first field. */
  lemma SplitFirstField(t: string, tail: string, sep: char)
    requires sep !in t
    requires tail == [] || tail[0] == sep
    ensures Split(t + tail, sep)[0] == t
  {
    if tail == [] {
      assert t + tail == t;
      SplitWithoutSeparator(t, sep);
    } else {
      assert t + tail == t + [sep] + tail[1..];
      SplitAtFirstSeparator(t, tail[1..], sep);
    }
  }

  /** `s.startsWith(prefix)`. */
  predicate StartsWith(s: string, prefix: string) {
    prefix <= s
  }

  /** `s.replace(/^prefix/, '')` for a literal prefix: removes the prefix once,
      and only at the start; any other string is returned unchanged. */
  function StripLeading(s: string, prefix: string): (r: string)
    ensures StartsWith(s, prefix) ==> s == prefix + r
    ensures !StartsWith(s, prefix) ==> r == s
    ensures |r| <= |s|
  {
    if StartsWith(s, prefix) then s[|prefix|..] else s
  }}
